/**
 * The admin's SKU rule: a product saved with a blank SKU receives one more
 * than the SKU of the product that sorts first by descending SKU, or "1"
 * when there are no products.  The arithmetic passes through Python's
 * int() and str(), modelled here for ASCII text.
 */
module Sku {
  import opened Records

  // ---------------------------------------------------------------------
  // Characters
  // ---------------------------------------------------------------------

  predicate IsDigit(c: char) {
    '0' <= c <= '9'
  }

  /** The ASCII characters int() skips as surrounding whitespace. */
  predicate IsSpace(c: char) {
    c == ' ' || c == '\t' || c == '\n' || c == '\r' || c == '\U{000B}' || c == '\U{000C}'
  }

  predicate AllDigits(s: string) {
    forall i :: 0 <= i < |s| ==> IsDigit(s[i])
  }

  function DigitChar(d: nat): (c: char)
    requires d < 10
    ensures IsDigit(c)
  {
    ((('0' as int) + d) as char)
  }

  // ---------------------------------------------------------------------
  // int(s)
  // ---------------------------------------------------------------------

  function StripLeft(s: string): string {
    if |s| > 0 && IsSpace(s[0]) then StripLeft(s[1..]) else s
  }

  function StripRight(s: string): string {
    if |s| > 0 && IsSpace(s[|s| - 1]) then StripRight(s[..|s| - 1]) else s
  }

  /** The value of a string of decimal digits, leading zeros allowed. */
  function DigitsValue(s: string): nat
    requires AllDigits(s)
  {
    if s == [] then 0
    else DigitsValue(s[..|s| - 1]) * 10 + ((s[|s| - 1] as int) - ('0' as int))
  }

  function ParseDigits(s: string): Option<nat> {
    if |s| > 0 && AllDigits(s) then Some(DigitsValue(s)) else None
  }

  /**
   * int(s) on text: surrounding whitespace, then an optional sign, then one
   * or more digits.  None stands for the ValueError int() raises.
   */
  function ParseInt(s: string): Option<int> {
    var t := StripRight(StripLeft(s));
    if |t| > 0 && (t[0] == '-' || t[0] == '+') then
      match ParseDigits(t[1..])
      case Some(v) => var n: int := v; Some(if t[0] == '-' then -n else n)
      case None => None
    else
      match ParseDigits(t)
      case Some(v) => Some(v)
      case None => None
  }

  // ---------------------------------------------------------------------
  // str(n)
  // ---------------------------------------------------------------------

  function Natural(n: nat): string {
    if n < 10 then [DigitChar(n)] else Natural(n / 10) + [DigitChar(n % 10)]
  }

  /** str(n) for an integer n. */
  function ToDecimal(n: int): string {
    if n < 0 then "-" + Natural(-n) else Natural(n)
  }

  /** The one spelling str() gives a number: no sign for non-negatives, no leading zeros. */
  ghost predicate Canonical(s: string) {
    || s == "0"
    || (|s| > 0 && IsDigit(s[0]) && s[0] != '0' && AllDigits(s))
    || (|s| > 1 && s[0] == '-' && s[1] != '0' && AllDigits(s[1..]))
  }

  lemma {:induction false} NaturalDigits(n: nat)
    ensures |Natural(n)| > 0 && AllDigits(Natural(n))
    ensures DigitsValue(Natural(n)) == n
    ensures n > 0 ==> Natural(n)[0] != '0'
  {
    if n >= 10 {
      NaturalDigits(n / 10);
      var s := Natural(n);
      assert s == Natural(n / 10) + [DigitChar(n % 10)];
      assert s[..|s| - 1] == Natural(n / 10);
      assert s[0] == Natural(n / 10)[0];
    }
  }

  /** int(str(n)) == n, and str(n) is the canonical spelling. */
  lemma DecimalRoundTrip(n: int)
    ensures ParseInt(ToDecimal(n)) == Some(n)
    ensures Canonical(ToDecimal(n))
  {
    var s := ToDecimal(n);
    var m: nat := if n < 0 then -n else n;
    NaturalDigits(m);
    var d := Natural(m);
    assert IsDigit(d[|d| - 1]);
    if n < 0 {
      assert s == "-" + d && s[1..] == d;
    } else {
      assert s == d;
    }
    assert StripLeft(s) == s;
    assert StripRight(s) == s;
  }

  // ---------------------------------------------------------------------
  // Orderings of the sku column
  // ---------------------------------------------------------------------

  /** Code-point lexicographic order: how a text column sorts. */
  predicate LexLess(a: string, b: string) {
    if a == [] then b != []
    else if b == [] then false
    else if a[0] != b[0] then a[0] < b[0]
    else LexLess(a[1..], b[1..])
  }

  /** `a` comes before `b` under order_by('-sku') on a text column. */
  predicate LexAbove(a: string, b: string) {
    LexLess(b, a)
  }

  /** Numeric order of the values int() reads. */
  predicate NumericAbove(a: string, b: string) {
    ParseInt(a).Some? && ParseInt(b).Some? && ParseInt(a).value > ParseInt(b).value
  }

  lemma {:induction false} LexLessIrreflexive(a: string)
    ensures !LexLess(a, a)
  {
    if a != [] {
      LexLessIrreflexive(a[1..]);
    }
  }

  lemma {:induction false} LexLessTransitive(a: string, b: string, c: string)
    requires LexLess(a, b) && LexLess(b, c)
    ensures LexLess(a, c)
  {
    if a != [] && b != [] && c != [] && a[0] == b[0] && b[0] == c[0] {
      LexLessTransitive(a[1..], b[1..], c[1..]);
    }
  }

  lemma {:induction false} LexLessTotal(a: string, b: string)
    ensures a == b || LexLess(a, b) || LexLess(b, a)
  {
    if a != [] && b != [] && a[0] == b[0] {
      LexLessTotal(a[1..], b[1..]);
      if a[1..] == b[1..] {
        assert a == [a[0]] + a[1..] && b == [b[0]] + b[1..];
      }
    }
  }

  /** `top` is a product that order_by('-sku').first() may return under the ordering `above`. */
  ghost predicate IsFirstBySku(products: map<ProductId, Product>, top: ProductId, above: (string, string) -> bool) {
    top in products &&
    forall j :: j in products ==> !above(products[j].sku, products[top].sku)
  }

  /** On a text column the product found first holds the greatest SKU: every other SKU equals it or sorts below it. */
  lemma LexFirstIsMaximum(products: map<ProductId, Product>, top: ProductId)
    requires IsFirstBySku(products, top, LexAbove)
    ensures forall j :: j in products ==> products[j].sku == products[top].sku || LexLess(products[j].sku, products[top].sku)
  {
    forall j | j in products
      ensures products[j].sku == products[top].sku || LexLess(products[j].sku, products[top].sku)
    {
      LexLessTotal(products[j].sku, products[top].sku);
    }
  }

  /** Every non-empty table has a product that order_by('-sku').first() may return on a text column. */
  lemma {:induction false} LexFirstExists(products: map<ProductId, Product>)
    requires products != map[]
    ensures exists top :: IsFirstBySku(products, top, LexAbove)
    decreases |products.Keys|
  {
    var k :| k in products;
    var rest := map j | j in products && j != k :: products[j];
    assert products.Keys == rest.Keys + {k};
    if rest == map[] {
      LexLessIrreflexive(products[k].sku);
      assert products.Keys == {k};
      assert IsFirstBySku(products, k, LexAbove);
    } else {
      LexFirstExists(rest);
      var t :| IsFirstBySku(rest, t, LexAbove);
      if LexLess(products[t].sku, products[k].sku) {
        assert IsFirstBySku(products, k, LexAbove) by {
          forall j | j in products ensures !LexLess(products[k].sku, products[j].sku) {
            if j == k {
              LexLessIrreflexive(products[k].sku);
            } else {
              assert j in rest;
              if LexLess(products[k].sku, products[j].sku) {
                LexLessTransitive(products[t].sku, products[k].sku, products[j].sku);
              }
            }
          }
        }
      } else {
        assert IsFirstBySku(products, t, LexAbove) by {
          forall j | j in products ensures !LexLess(products[t].sku, products[j].sku) {
            if j != k {
              assert j in rest;
            }
          }
        }
      }
    }
  }

  // ---------------------------------------------------------------------
  // save_model and get_sku
  // ---------------------------------------------------------------------

  /**
   * The SKU a product is saved with, given its own SKU and the SKU of the
   * first product by descending SKU (None when there are no products).
   * Err(ValueError) when that SKU is not a decimal integer.
   */
  function AssignSku(sku: string, topSku: Option<string>): (r: Result<string>)
    ensures r.Err? ==> r.error == ValueError
    ensures r.Ok? ==> r.value != ""
  {
    if sku != "" then Ok(sku)
    else match topSku
      case None => Ok("1")
      case Some(t) =>
        match ParseInt(t)
        case None => Err(ValueError)
        case Some(v) => Ok(ToDecimal(v + 1))
  }

  /** A non-blank SKU is kept as it is. */
  lemma SetSkuIsKept(sku: string, topSku: Option<string>)
    requires sku != ""
    ensures AssignSku(sku, topSku) == Ok(sku)
  {
  }

  /** A blank SKU with no products becomes "1". */
  lemma FirstSkuIsOne()
    ensures AssignSku("", None) == Ok("1")
    ensures ParseInt("1") == Some(1)
  {
  }

  /**
   * A blank SKU after a product whose SKU reads as v becomes the canonical
   * decimal spelling of v + 1; after one whose SKU does not read as a number
   * the save fails with ValueError.
   */
  lemma NextSkuFollowsTop(t: string)
    ensures AssignSku("", Some(t)).Err? <==> ParseInt(t).None?
    ensures ParseInt(t).Some? ==>
      var s := AssignSku("", Some(t)).value;
      ParseInt(s) == Some(ParseInt(t).value + 1) && Canonical(s)
  {
    if ParseInt(t).Some? {
      DecimalRoundTrip(ParseInt(t).value + 1);
    }
  }

  /**
   * When the product found first holds the numerically largest SKU, the
   * assigned SKU differs from every SKU in the table.
   */
  lemma NumericOrderGivesFreshSku(products: map<ProductId, Product>, top: ProductId)
    requires IsFirstBySku(products, top, NumericAbove)
    requires ParseInt(products[top].sku).Some?
    ensures AssignSku("", Some(products[top].sku)).Ok?
    ensures forall j :: j in products ==> products[j].sku != AssignSku("", Some(products[top].sku)).value
  {
    var v := ParseInt(products[top].sku).value;
    var s := AssignSku("", Some(products[top].sku)).value;
    DecimalRoundTrip(v + 1);
    forall j | j in products ensures products[j].sku != s {
      if products[j].sku == s {
        assert NumericAbove(products[j].sku, products[top].sku);
      }
    }
  }

  /**
   * On a text column, "9" sorts above "10", so with SKUs "9" and "10" in the
   * table the product found first is the "9" one and the new SKU is "10",
   * which is already taken.
   */
  lemma LexicographicOrderCanRepeatSku()
    ensures var products := map[1 := Product(0, 0, true, 0, "9"), 2 := Product(0, 0, true, 0, "10")];
      && IsFirstBySku(products, 1, LexAbove)
      && AssignSku("", Some(products[1].sku)) == Ok(products[2].sku)
  {
    var products := map[1 := Product(0, 0, true, 0, "9"), 2 := Product(0, 0, true, 0, "10")];
    LexLessIrreflexive("9");
    assert !LexAbove("10", "9");
    forall j | j in products ensures !LexAbove(products[j].sku, products[1].sku) {
      assert j == 1 || j == 2;
    }
    assert ParseInt("9") == Some(9);
    assert ToDecimal(10) == "10";
  }

  /** The admin's SKU column: the SKU itself, or 'Not Set' for a blank one. */
  function GetSku(sku: string): (r: string)
    ensures r != ""
    ensures sku != "" ==> r == sku
    ensures r == "Not Set" <==> sku == "" || sku == "Not Set"
  {
    if sku != "" then sku else "Not Set"
  }
}
