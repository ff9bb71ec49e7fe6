/**
 * `EmerchantpayHelper`: the plugin's shared constants, the order-total
 * sums, the product tax-class table, the Klarna item list and the HTTPS
 * test. Money is an integer in 1/10000 of the currency unit, the scale of
 * OpenCart's DECIMAL(15,4) order totals and prices.
 */
module EmerchantpayHelper {
  import opened Php
  import Genesis

  const PproTransactionSuffix := "_ppro"
  const TransactionLanguagePrefix := "text_transaction_"
  const GooglePayTransactionPrefix := Genesis.GooglePay + "_"
  const PayPalTransactionPrefix := Genesis.PayPal + "_"
  const ApplePayTransactionPrefix := Genesis.ApplePay + "_"
  const ReferenceActionCapture := "capture"
  const ReferenceActionRefund := "refund"
  const ControllerActionSeparator := '.'

  /** `getRecurringTransactionTypes()`: the initial recurring types. */
  const RecurringTransactionTypes := [Genesis.InitRecurringSale, Genesis.InitRecurringSale3d]

  /** 1/10000 of a currency unit per unit. */
  const Scale := 10000

  // ---------------------------------------------------------------------
  // order totals

  /** One line of `order_totals`: its `code` and its `value`. */
  datatype OrderTotal = OrderTotal(code: string, value: int)

  /** The sum of the values of the lines with the given code. */
  function CodeSum(totals: seq<OrderTotal>, code: string): int
  {
    if totals == [] then 0
    else CodeSum(totals[..|totals| - 1], code) + (if totals[|totals| - 1].code == code then totals[|totals| - 1].value else 0)
  }

  /** The foreach accumulator behind both order-total sums. */
  method SumOfCode(totals: seq<OrderTotal>, code: string) returns (sum: int)
    ensures sum == CodeSum(totals, code)
  {
    sum := 0;
    var i := 0;
    while i < |totals|
      invariant 0 <= i <= |totals|
      invariant sum == CodeSum(totals[..i], code)
    {
      assert totals[..i + 1][..i] == totals[..i];
      if totals[i].code == code {
        sum := sum + totals[i].value;
      }
      i := i + 1;
    }
    assert totals[..i] == totals;
  }

  /** `getShippingFromOrderTotals`, with the whole sum kept (see `ShippingAsWritten`). */
  method GetShippingFromOrderTotals(totals: seq<OrderTotal>) returns (shipping: int)
    ensures shipping == CodeSum(totals, "shipping")
  {
    shipping := SumOfCode(totals, "shipping");
  }

  /** `getTaxFromOrderTotals`, with the whole sum kept (see `TaxAsWritten`). */
  method GetTaxFromOrderTotals(totals: seq<OrderTotal>) returns (tax: int)
    ensures tax == CodeSum(totals, "tax")
  {
    tax := SumOfCode(totals, "tax");
  }

  /** With no line of that code the sum is 0. */
  lemma {:induction false} CodeSumAbsent(totals: seq<OrderTotal>, code: string)
    requires forall k | 0 <= k < |totals| :: totals[k].code != code
    ensures CodeSum(totals, code) == 0
  {
    if totals != [] {
      CodeSumAbsent(totals[..|totals| - 1], code);
    }
  }

  /** The sum over two lists of lines is the sum of the sums. */
  lemma {:induction false} CodeSumAppend(a: seq<OrderTotal>, b: seq<OrderTotal>, code: string)
    ensures CodeSum(a + b, code) == CodeSum(a, code) + CodeSum(b, code)
  {
    if b != [] {
      assert (a + b)[..|a + b| - 1] == a + b[..|b| - 1];
      assert (a + b)[|a + b| - 1] == b[|b| - 1];
      CodeSumAppend(a, b[..|b| - 1], code);
    } else {
      assert a + b == a;
    }
  }

  /** Lines of other codes do not change the sum, wherever they are. */
  lemma {:induction false} CodeSumIgnoresOthers(totals: seq<OrderTotal>, other: OrderTotal, code: string, k: nat)
    requires k <= |totals| && other.code != code
    ensures CodeSum(totals[..k] + [other] + totals[k..], code) == CodeSum(totals, code)
  {
    CodeSumAppend(totals[..k] + [other], totals[k..], code);
    CodeSumAppend(totals[..k], [other], code);
    CodeSumAppend(totals[..k], totals[k..], code);
    assert totals[..k] + totals[k..] == totals;
  }

  /**
   * `(int)` of a money amount: the declared `int` return type drops the
   * fraction of a currency unit, rounding toward zero.
   */
  function TruncateToUnit(amount: int): (r: int)
    ensures r % Scale == 0
    ensures amount >= 0 ==> 0 <= r <= amount && amount - r < Scale
    ensures amount < 0 ==> amount <= r <= 0 && r - amount < Scale
  {
    if amount >= 0 then amount / Scale * Scale else -((-amount) / Scale * Scale)
  }

  /** `getShippingFromOrderTotals` as written: the sum is returned through an `int` return type. */
  function ShippingAsWritten(totals: seq<OrderTotal>): (r: int)
    ensures r == TruncateToUnit(CodeSum(totals, "shipping"))
  {
    TruncateToUnit(CodeSum(totals, "shipping"))
  }

  /** `getTaxFromOrderTotals` as written. */
  function TaxAsWritten(totals: seq<OrderTotal>): (r: int)
    ensures r == TruncateToUnit(CodeSum(totals, "tax"))
  {
    TruncateToUnit(CodeSum(totals, "tax"))
  }

  /** A shipping cost of 5.99 comes back as 5, and one of 0.50 as 0 (so Klarna gets no shipping item at all). */
  lemma ShippingLosesFraction()
    ensures ShippingAsWritten([OrderTotal("shipping", 59900)]) == 50000 != CodeSum([OrderTotal("shipping", 59900)], "shipping")
    ensures ShippingAsWritten([OrderTotal("shipping", 5000)]) == 0 != CodeSum([OrderTotal("shipping", 5000)], "shipping")
  {
    assert CodeSum([OrderTotal("shipping", 59900)], "shipping") == 59900 by {
      assert [OrderTotal("shipping", 59900)][..0] == [];
    }
    assert CodeSum([OrderTotal("shipping", 5000)], "shipping") == 5000 by {
      assert [OrderTotal("shipping", 5000)][..0] == [];
    }
  }

  /** The same loss for taxes: 1.25 of tax becomes 1. */
  lemma TaxLosesFraction()
    ensures TaxAsWritten([OrderTotal("tax", 12500)]) == 10000 != CodeSum([OrderTotal("tax", 12500)], "tax")
  {
    assert CodeSum([OrderTotal("tax", 12500)], "tax") == 12500 by {
      assert [OrderTotal("tax", 12500)][..0] == [];
    }
  }

  /** The truncation is harmless exactly when the sum is a whole number of units. */
  lemma TruncationExactIff(amount: int)
    ensures TruncateToUnit(amount) == amount <==> amount % Scale == 0
  {
  }

  // ---------------------------------------------------------------------
  // product tax classes and Klarna items

  /** One entry of `product_info`. */
  datatype ProductInfo = ProductInfo(productId: int, taxClassId: int)

  /** The last entry of `products` for a product id, if any. */
  function LastTaxClass(products: seq<ProductInfo>, id: int): Option<int>
  {
    if products == [] then None
    else if products[|products| - 1].productId == id then Some(products[|products| - 1].taxClassId)
    else LastTaxClass(products[..|products| - 1], id)
  }

  /**
   * `getTaxClassIdFromProductInfo`: product id => tax class id; a later
   * entry for the same product overwrites an earlier one.
   */
  method GetTaxClassIdFromProductInfo(products: seq<ProductInfo>) returns (classIds: map<int, int>)
    ensures forall id :: id in classIds <==> exists k | 0 <= k < |products| :: products[k].productId == id
    ensures forall id | id in classIds :: LastTaxClass(products, id) == Some(classIds[id])
  {
    classIds := map[];
    var i := 0;
    while i < |products|
      invariant 0 <= i <= |products|
      invariant forall id :: id in classIds <==> exists k | 0 <= k < i :: products[k].productId == id
      invariant forall id | id in classIds :: LastTaxClass(products[..i], id) == Some(classIds[id])
    {
      assert products[..i + 1][..i] == products[..i];
      classIds := classIds[products[i].productId := products[i].taxClassId];
      i := i + 1;
    }
    assert products[..i] == products;
  }

  /** `LastTaxClass` finds an entry exactly for the ids that occur. */
  lemma {:induction false} LastTaxClassFound(products: seq<ProductInfo>, id: int)
    ensures LastTaxClass(products, id).Some? <==> exists k | 0 <= k < |products| :: products[k].productId == id
  {
    if products != [] {
      var n := |products|;
      LastTaxClassFound(products[..n - 1], id);
      if products[n - 1].productId != id && exists k | 0 <= k < n :: products[k].productId == id {
        var k :| 0 <= k < n && products[k].productId == id;
        assert products[..n - 1][k].productId == id;
      }
    }
  }

  /** Later entries win: the class found is that of the last entry for the product. */
  lemma {:induction false} LastTaxClassIsLast(products: seq<ProductInfo>, id: int, k: nat)
    requires k < |products| && products[k].productId == id
    requires forall j | k < j < |products| :: products[j].productId != id
    ensures LastTaxClass(products, id) == Some(products[k].taxClassId)
  {
    var n := |products|;
    if k < n - 1 {
      LastTaxClassIsLast(products[..n - 1], id, k);
    }
  }

  /** The product counts as virtual: its tax class is the virtual class, or it has none and that class is 0. */
  predicate IsDigitalProduct(productInfo: seq<ProductInfo>, id: int, virtualClass: int)
  {
    LastTaxClass(productInfo, id) == Some(virtualClass) || (LastTaxClass(productInfo, id) == None && virtualClass == 0)
  }

  /** One entry of `product_order_info`. */
  datatype OrderedProduct = OrderedProduct(productId: int, name: string, quantity: int, price: int)

  datatype ItemType = Physical | Digital | Surcharge | ShippingFee

  /** A Klarna order item. */
  datatype Item = Item(name: string, itemType: ItemType, quantity: int, price: int)

  /** The Klarna `Items` collection: its currency and its items, in the order they were added. */
  datatype Items = Items(currency: string, items: seq<Item>)

  /**
   * `$tax_class_ids[$id] == OC_TAX_CLASS_VIRTUAL_PRODUCT`; a product with no
   * tax class reads as `null`, which PHP 8 compares equal to 0.
   */
  predicate IsVirtual(classIds: map<int, int>, id: int, virtualClass: int)
  {
    if id in classIds then classIds[id] == virtualClass else virtualClass == 0
  }

  /** The item for one ordered product: digital for the virtual tax class, physical otherwise. */
  function ProductItem(p: OrderedProduct, classIds: map<int, int>, virtualClass: int): Item
  {
    Item(p.name, if IsVirtual(classIds, p.productId, virtualClass) then Digital else Physical, p.quantity, p.price)
  }

  /**
   * The items sent to Klarna for an order: in the order's currency, one per
   * ordered product with its name, quantity and price, digital exactly for
   * the virtual tax class; then a "Taxes" surcharge and a "Shipping Costs"
   * fee, each exactly when its sum is non-zero.
   */
  predicate KlarnaItemsFor(r: Items, currency: string, productInfo: seq<ProductInfo>, ordered: seq<OrderedProduct>,
                           totals: seq<OrderTotal>, virtualClass: int)
  {
    && r.currency == currency
    && |r.items| == |ordered| + (if CodeSum(totals, "tax") != 0 then 1 else 0) + (if CodeSum(totals, "shipping") != 0 then 1 else 0)
    && (forall k | 0 <= k < |ordered| ::
          r.items[k].name == ordered[k].name && r.items[k].quantity == ordered[k].quantity && r.items[k].price == ordered[k].price &&
          (r.items[k].itemType == Digital <==> IsDigitalProduct(productInfo, ordered[k].productId, virtualClass)))
    && (forall k | 0 <= k < |ordered| :: r.items[k].itemType in {Physical, Digital})
    && (CodeSum(totals, "tax") != 0 ==> r.items[|ordered|] == Item("Taxes", Surcharge, 1, CodeSum(totals, "tax")))
    && (CodeSum(totals, "shipping") != 0 ==> r.items[|r.items| - 1] == Item("Shipping Costs", ShippingFee, 1, CodeSum(totals, "shipping")))
  }

  /**
   * `getKlarnaCustomParamItems`, corrected (Findings row 2): one item per
   * ordered product, then a "Taxes" surcharge and a "Shipping Costs" fee,
   * each only when its exact sum is non-zero, where the source tests and
   * sends the sum truncated to whole units. The tax class of the virtual
   * product is `virtualClass`.
   */
  method GetKlarnaCustomParamItems(currency: string, productInfo: seq<ProductInfo>, ordered: seq<OrderedProduct>,
                                   totals: seq<OrderTotal>, virtualClass: int) returns (r: Items)
    ensures KlarnaItemsFor(r, currency, productInfo, ordered, totals, virtualClass)
  {
    var classIds := GetTaxClassIdFromProductInfo(productInfo);
    var items: seq<Item> := [];
    var i := 0;
    while i < |ordered|
      invariant 0 <= i <= |ordered|
      invariant |items| == i
      invariant forall k | 0 <= k < i :: items[k] == ProductItem(ordered[k], classIds, virtualClass)
    {
      items := items + [ProductItem(ordered[i], classIds, virtualClass)];
      i := i + 1;
    }
    forall k | 0 <= k < |ordered|
      ensures items[k].itemType == Digital <==> IsDigitalProduct(productInfo, ordered[k].productId, virtualClass)
    {
      LastTaxClassFound(productInfo, ordered[k].productId);
    }
    var taxes := GetTaxFromOrderTotals(totals);
    if taxes != 0 {
      items := items + [Item("Taxes", Surcharge, 1, taxes)];
    }
    var shipping := GetShippingFromOrderTotals(totals);
    if shipping != 0 {
      items := items + [Item("Shipping Costs", ShippingFee, 1, shipping)];
    }
    r := Items(currency, items);
  }

  // ---------------------------------------------------------------------
  // HTTPS detection

  /** The request headers `isSecureConnection` looks at; an absent one is `None`. */
  datatype Server = Server(https: Option<string>, forwardedProto: Option<string>, forwardedPort: Option<string>)

  /** `!empty($server[$key])`. */
  predicate Present(v: Option<string>)
  {
    v.Some? && !Empty(v.value)
  }

  /**
   * `isSecureConnection`: HTTPS is set to anything but "off" (in any
   * case), or the proxy forwarded the https scheme, or port 443.
   */
  function IsSecureConnection(server: Server): (r: bool)
    ensures r <==>
      (Present(server.https) && !SameIgnoringCase(server.https.value, "off")) ||
      (Present(server.forwardedProto) && server.forwardedProto.value == "https") ||
      (Present(server.forwardedPort) && LooseEqualsNumber(server.forwardedPort.value, 443))
  {
    if Present(server.https) && Lower(server.https.value) != "off" then
      LowerEqualsIgnoringCase(server.https.value, "off");
      true
    else if Present(server.forwardedProto) && server.forwardedProto.value == "https" then true
    else if Present(server.forwardedPort) && LooseEqualsNumber(server.forwardedPort.value, 443) then true
    else if Present(server.https) then
      LowerEqualsIgnoringCase(server.https.value, "off");
      false
    else false
  }

  /** With no forwarding headers, "OFF" and "Off" mean plain HTTP just as "off" does. */
  lemma OffInAnyCase()
    ensures !IsSecureConnection(Server(Some("OFF"), None, None))
    ensures !IsSecureConnection(Server(Some("Off"), None, None))
  {
  }

  /** With no forwarding headers, "on" means HTTPS. */
  lemma OnIsSecure()
    ensures IsSecureConnection(Server(Some("on"), None, None))
  {
    assert !SameIgnoringCase("on", "off") by {
      assert LowerChar("on"[1]) != LowerChar("off"[1]);
    }
  }

  /** Forwarded plain HTTP on port 80 is not secure. */
  lemma ForwardedHttpIsPlain()
    ensures !IsSecureConnection(Server(None, Some("http"), Some("80")))
  {
    assert !LooseEqualsNumber("80", 443) by {
      IntValOfDigits("80");
      PortEightyValue();
    }
  }

  /** The digits "80" read as 80. */
  lemma PortEightyValue()
    ensures DigitsValue("80") == 80
  {
    assert "80"[..1] == "8";
    assert "8"[..0] == "";
  }

  /** A forwarded port of "0443" counts as 443 under PHP's loose comparison. */
  lemma ForwardedPortIsNumeric()
    ensures IsSecureConnection(Server(None, None, Some("0443")))
  {
    var s := "0443";
    assert LooseEqualsNumber(s, 443) by {
      assert SkipIntSpace(s) == s;
      LeadingDigitsOfDigits(s);
      IntValOfDigits(s);
      ZeroPaddedPortValue();
    }
    assert Present(Some(s));
  }

  /** The digits "0443" read as 443. */
  lemma ZeroPaddedPortValue()
    ensures DigitsValue("0443") == 443
  {
    assert DigitsValue("0") == 0 by { assert "0"[..0] == ""; }
    assert DigitsValue("04") == 4 by { assert "04"[..1] == "0"; }
    assert DigitsValue("044") == 44 by { assert "044"[..2] == "04"; }
    assert "0443"[..3] == "044";
  }
}
