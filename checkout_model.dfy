/**
 * The storefront model of the hosted payment page (`emerchantpay_checkout`):
 * whether the method is offered, the lookup of a stored transaction, the
 * tokenization consumer cache, the transaction types sent to the payment
 * page (card types first, wallet and PPRO selections collapsed into one
 * entry per gateway type), the extra attributes some types need, and the
 * page language.
 */
module CheckoutModel {
  import opened Php
  import opened Rows
  import opened Genesis
  import opened EmerchantpayHelper
  import opened DbHelper
  import AdminModel

  // ---------------------------------------------------------------------
  // getMethods

  const MethodCode := "emerchantpay_checkout.emerchantpay_checkout"

  /** The method entry offered at checkout: its code, the option code and the configured sort order. */
  datatype MethodData = MethodData(code: string, optionCode: string, sortOrder: Value)

  /**
   * `getMethods`: offered when no geo zone is configured, or the store does
   * not require a billing address, or else when the address is inside the
   * zone (`inZone`, the result of the geo-zone check).
   */
  function GetMethods(geoZoneId: Value, billingRequired: Value, inZone: bool, sortOrder: Value): (r: Option<MethodData>)
    ensures r.Some? <==> !Truthy(geoZoneId) || !Truthy(billingRequired) || inZone
    ensures r.Some? ==> r.value == MethodData("emerchantpay_checkout", MethodCode, sortOrder)
  {
    var status := if !Truthy(geoZoneId) then true else if !Truthy(billingRequired) then true else inZone;
    if status then Some(MethodData("emerchantpay_checkout", MethodCode, sortOrder)) else None
  }

  /** The geo-zone check decides only when a zone is configured and a billing address is required. */
  lemma GeoZoneDecidesOnlyWhenConfigured(geoZoneId: Value, billingRequired: Value, sortOrder: Value)
    ensures GetMethods(geoZoneId, billingRequired, false, sortOrder).None? <==> Truthy(geoZoneId) && Truthy(billingRequired)
    ensures GetMethods(geoZoneId, billingRequired, true, sortOrder).Some?
  {
  }

  // ---------------------------------------------------------------------
  // getTransactionById

  /**
   * `getTransactionById` of the storefront checkout model: an empty id
   * (null, '', '0', 0) is answered with false without a query; otherwise the
   * row stored under that `unique_id`, or false.
   */
  function GetTransactionById(db: DbHelper, uniqueId: Value): (r: Option<Row>)
    reads db
    requires db.Valid()
    ensures !Truthy(uniqueId) ==> r.None?
    ensures Truthy(uniqueId) ==> (r.Some? <==> Text(uniqueId) in db.ids)
    ensures r.Some? ==> Text(Get(r.value, UniqueId)) == Text(uniqueId) && r.value in db.rows.Values
  {
    if Truthy(uniqueId) && Text(uniqueId) in db.rows then Some(db.rows[Text(uniqueId)]) else None
  }

  /** A row stored under '0' is never found, though it is in the table. */
  lemma ZeroIdIsNeverFound(db: DbHelper)
    requires db.Valid() && "0" in db.rows
    ensures GetTransactionById(db, Str("0")).None?
    ensures GetTransactionById(db, Int(0)).None?
  {
  }

  // ---------------------------------------------------------------------
  // the tokenization consumers

  /** What the gateway's consumer retrieve request gave: an exception, or a response. */
  datatype ConsumerLookup = LookupThrew | LookupAnswered(status: string, consumerId: Option<string>)

  /** `retrieveConsumerIdFromGenesisGateway`: null on an exception or an error response, else the response's consumer id. */
  function RetrievedConsumerId(lookup: ConsumerLookup): (r: Option<string>)
    ensures lookup.LookupThrew? ==> r.None?
    ensures lookup.LookupAnswered? && lookup.status == Error ==> r.None?
    ensures lookup.LookupAnswered? && lookup.status != Error ==> r == lookup.consumerId
  {
    match lookup
    case LookupThrew => None
    case LookupAnswered(status, consumerId) => if status == Error then None else consumerId
  }

  /** The error the consumers table raises for a second row with the same e-mail (its unique key). */
  function DuplicateEmailError(email: string): Exception
  {
    Exception("Exception", "Duplicate entry '" + email + "' for key 'customer_email'", "", None, [], None)
  }

  /**
   * The `<module>_consumers` table (e-mail to consumer id, the e-mail being
   * a unique key) and the module's database helper, whose log receives the
   * errors.
   */
  class ConsumerStore {
    var consumers: map<string, string>
    const db: DbHelper

    constructor(db: DbHelper)
      ensures consumers == map[] && this.db == db
    {
      consumers := map[];
      this.db := db;
    }

    /**
     * `getConsumerId`: the cached consumer id of a known e-mail; for an
     * unknown one, what the gateway lookup gives (the cache is not filled).
     */
    function GetConsumerId(email: string, lookup: ConsumerLookup): (r: Option<string>)
      reads this
      ensures email in consumers ==> r == Some(consumers[email])
      ensures email !in consumers ==> r == RetrievedConsumerId(lookup)
    {
      if email in consumers then Some(consumers[email]) else RetrievedConsumerId(lookup)
    }

    /** The error inserting `email` meets: its duplicate key, or `failure`, the database's own error. */
    function InsertError(email: string, failure: Option<Exception>): Option<Exception>
      reads this
    {
      if email in consumers then Some(DuplicateEmailError(email)) else failure
    }

    /**
     * `addConsumer`: INSERT the pair; an error (a known e-mail, or a database
     * error) is caught and logged, and the table stays as it was. After a
     * successful insert the e-mail reads back its new consumer id whatever
     * the gateway would answer.
     */
    method AddConsumer(email: string, consumerId: string, failure: Option<Exception>)
      modifies this`consumers, db`log
      ensures old(InsertError(email, failure)).Some? ==>
        consumers == old(consumers) && db.log == old(db.log) + db.LogLines(old(InsertError(email, failure)).value)
      ensures old(InsertError(email, failure)).None? ==>
        consumers == old(consumers)[email := consumerId] && db.log == old(db.log) &&
        forall lookup :: GetConsumerId(email, lookup) == Some(consumerId)
    {
      var error := InsertError(email, failure);
      if error.Some? {
        db.LogEx(error.value);
        return;
      }
      consumers := consumers[email := consumerId];
    }

    /** `saveWpfTokenizationData`: a non-empty consumer id in the gateway's answer is stored for the e-mail. */
    method SaveWpfTokenizationData(email: string, consumerId: Option<string>, failure: Option<Exception>)
      modifies this`consumers, db`log
      ensures consumerId.None? || Empty(consumerId.value) ==> consumers == old(consumers) && db.log == old(db.log)
      ensures consumerId.Some? && !Empty(consumerId.value) && old(InsertError(email, failure)).None? ==>
        consumers == old(consumers)[email := consumerId.value] && db.log == old(db.log)
      ensures consumerId.Some? && !Empty(consumerId.value) && old(InsertError(email, failure)).Some? ==>
        consumers == old(consumers) && db.log == old(db.log) + db.LogLines(old(InsertError(email, failure)).value)
    {
      if consumerId.Some? && !Empty(consumerId.value) {
        AddConsumer(email, consumerId.value, failure);
      }
    }
  }

  /**
   * `prepareWpfRequestTokenization`: the consumer id the request carries,
   * none when the lookup gives nothing or an empty id.
   */
  function TokenizationConsumerId(store: ConsumerStore, email: string, lookup: ConsumerLookup): (r: Option<string>)
    reads store
    ensures r.Some? ==> !Empty(r.value) && store.GetConsumerId(email, lookup) == r
    ensures r.None? ==> store.GetConsumerId(email, lookup).None? || Empty(store.GetConsumerId(email, lookup).value)
  {
    var consumerId := store.GetConsumerId(email, lookup);
    if consumerId.Some? && !Empty(consumerId.value) then consumerId else None
  }

  // ---------------------------------------------------------------------
  // orderCardTransactionTypes

  /**
   * `orderCardTransactionTypes`: the selection sorted (`asort`), then the
   * card types of the SDK's card-type list that were selected, in that
   * list's order, followed by the remaining selected types in ascending
   * order.
   */
  function OrderCardTransactionTypes(cardTypes: seq<string>, selected: seq<string>): (r: seq<string>)
  {
    var sorted := StableSortBy(selected, AdminModel.Identity);
    var front := Intersect(cardTypes, sorted);
    front + Without(sorted, front)
  }

  lemma {:induction false} IntersectSameMembers(a: seq<string>, b1: seq<string>, b2: seq<string>)
    requires forall x :: x in b1 <==> x in b2
    ensures Intersect(a, b1) == Intersect(a, b2)
  {
    if a != [] {
      IntersectSameMembers(a[..|a| - 1], b1, b2);
    }
  }

  lemma {:induction false} WithoutSorted(xs: seq<string>, excluded: seq<string>)
    requires SortedBy(xs, AdminModel.Identity)
    ensures SortedBy(Without(xs, excluded), AdminModel.Identity)
  {
    if xs != [] {
      var tail := Without(xs[1..], excluded);
      assert SortedBy(xs[1..], AdminModel.Identity) by {
        forall i, j | 0 <= i < j < |xs[1..]|
          ensures StrLe(xs[1..][i], xs[1..][j])
        {
          assert xs[1..][i] == xs[i + 1] && xs[1..][j] == xs[j + 1];
        }
      }
      WithoutSorted(xs[1..], excluded);
      if xs[0] !in excluded {
        var r := [xs[0]] + tail;
        forall i, j | 0 <= i < j < |r|
          ensures StrLe(r[i], r[j])
        {
          if i == 0 {
            assert r[j] == tail[j - 1] && r[j] in tail;
            var k :| 0 <= k < |xs[1..]| && xs[1..][k] == r[j];
            assert xs[k + 1] == r[j];
          }
        }
      }
    }
  }

  /**
   * The order `orderCardTransactionTypes` promises: exactly the selected
   * types; first the selected card types in card-type order, then the rest
   * in ascending order, none of them a card type.
   */
  lemma OrderCardTransactionTypesOrder(cardTypes: seq<string>, selected: seq<string>)
    ensures var r := OrderCardTransactionTypes(cardTypes, selected);
      var front := Intersect(cardTypes, selected);
      (forall x :: x in r <==> x in selected) &&
      |front| <= |r| && r[..|front|] == front &&
      SortedBy(r[|front|..], AdminModel.Identity) &&
      (forall x | x in r[|front|..] :: x !in cardTypes)
  {
    var sorted := StableSortBy(selected, AdminModel.Identity);
    assert forall x :: x in sorted <==> x in multiset(sorted);
    assert forall x :: x in selected <==> x in multiset(selected);
    IntersectSameMembers(cardTypes, sorted, selected);
    var front := Intersect(cardTypes, sorted);
    var r := OrderCardTransactionTypes(cardTypes, selected);
    assert r[..|front|] == front;
    assert r[|front|..] == Without(sorted, front);
    WithoutSorted(sorted, front);
  }

  // ---------------------------------------------------------------------
  // getCustomParameterKey and the alias map

  /** `getCustomParameterKey`: the WPF custom attribute each aliased gateway type takes its subtype in. */
  function GetCustomParameterKey(transactionType: string): (r: string)
    ensures transactionType == Ppro ==> r == "payment_method"
    ensures transactionType == PayPal ==> r == "payment_type"
    ensures transactionType == GooglePay || transactionType == ApplePay ==> r == "payment_subtype"
    ensures transactionType !in {Ppro, PayPal, GooglePay, ApplePay} ==> r == "unknown"
  {
    if transactionType == Ppro then "payment_method"
    else if transactionType == PayPal then "payment_type"
    else if transactionType == GooglePay || transactionType == ApplePay then "payment_subtype"
    else "unknown"
  }

  /** The wallet selections and the gateway type each stands for. */
  const WalletAliases: map<string, string> := map[
    GooglePayTransactionPrefix + SubtypeAuthorize := GooglePay,
    GooglePayTransactionPrefix + SubtypeSale := GooglePay,
    PayPalTransactionPrefix + SubtypeAuthorize := PayPal,
    PayPalTransactionPrefix + SubtypeSale := PayPal,
    PayPalTransactionPrefix + SubtypeExpress := PayPal,
    ApplePayTransactionPrefix + SubtypeAuthorize := ApplePay,
    ApplePayTransactionPrefix + SubtypeSale := ApplePay]

  /** The alias map: every PPRO method with the `_ppro` suffix stands for ppro, merged with the wallet selections. */
  function AliasMap(methods: seq<string>): (r: map<string, string>)
    ensures forall m | m in methods :: m + PproTransactionSuffix in r
    ensures WalletAliases.Keys <= r.Keys
  {
    (map m | m in methods :: m + PproTransactionSuffix := Ppro) + WalletAliases
  }

  /** Every aliased selection lands on a gateway type that has a custom attribute: none is keyed 'unknown'. */
  lemma AliasTargetsHaveKeys(methods: seq<string>)
    ensures forall s | s in AliasMap(methods) :: GetCustomParameterKey(AliasMap(methods)[s]) != "unknown"
  {
    var alias := AliasMap(methods);
    forall s | s in alias
      ensures alias[s] in {Ppro, PayPal, GooglePay, ApplePay}
    {
      if s !in WalletAliases {
        assert alias[s] == Ppro;
      }
    }
  }

  /** The selection with the PPRO suffix and the wallet prefixes removed (`str_replace`). */
  function StripAffixes(s: string): string
  {
    RemoveEach(s, [PproTransactionSuffix, GooglePayTransactionPrefix, PayPalTransactionPrefix, ApplePayTransactionPrefix])
  }

  // ---------------------------------------------------------------------
  // getTransactionTypes

  /**
   * An entry of the processed list: a type sent as it is, or an aliased
   * gateway type with one `{key: subtype}` parameter per selection.
   */
  datatype TypeItem = Plain(t: string) | Aliased(name: string, parameters: seq<(string, string)>)

  /** The parameter a selection `s` standing for gateway type `b` adds. */
  function Parameter(b: string, s: string): (string, string)
  {
    (GetCustomParameterKey(b), StripAffixes(s))
  }

  /** The position of the entry for gateway type `b` (`$processed_list[$b]`), or `|items|` when there is none. */
  function AliasedAt(items: seq<TypeItem>, b: string): (k: nat)
    ensures k <= |items|
    ensures k < |items| ==> items[k].Aliased? && items[k].name == b
    ensures forall j | 0 <= j < k :: !(items[j].Aliased? && items[j].name == b)
  {
    if items == [] then 0
    else if items[0].Aliased? && items[0].name == b then 0
    else 1 + AliasedAt(items[1..], b)
  }

  /** One pass of the loop of `getTransactionTypes` over the selection `s`. */
  function AddType(items: seq<TypeItem>, s: string, alias: map<string, string>): seq<TypeItem>
  {
    if s in alias then
      var b := alias[s];
      var k := AliasedAt(items, b);
      if k < |items| then items[k := Aliased(b, items[k].parameters + [Parameter(b, s)])]
      else items + [Aliased(b, [Parameter(b, s)])]
    else items + [Plain(s)]
  }

  /** The processed list after the loop has seen `selected`. */
  function TypeList(selected: seq<string>, alias: map<string, string>): seq<TypeItem>
  {
    if selected == [] then []
    else AddType(TypeList(selected[..|selected| - 1], alias), selected[|selected| - 1], alias)
  }

  /**
   * `getTransactionTypes`: the configured selection put in card-first
   * order, then each selection either passed through or collapsed into the
   * entry of the gateway type it stands for. The result keeps every
   * non-aliased selection in order, has one entry per aliased gateway type,
   * and that entry's parameters are those of its selections, in selection
   * order.
   */
  method GetTransactionTypes(sdk: Sdk, configured: seq<string>) returns (list: seq<TypeItem>)
    ensures var selected := OrderCardTransactionTypes(sdk.cardTypes, configured);
      var alias := AliasMap(sdk.methods);
      list == TypeList(selected, alias) &&
      PlainTypes(list) == Unaliased(selected, alias) &&
      AliasedOnce(list) &&
      forall b :: ParametersOf(list, b) == SelectionParameters(selected, alias, b)
  {
    var selected := OrderCardTransactionTypes(sdk.cardTypes, configured);
    var alias := AliasMap(sdk.methods);
    list := [];
    var i := 0;
    while i < |selected|
      invariant 0 <= i <= |selected|
      invariant list == TypeList(selected[..i], alias)
    {
      TypeListStep(selected, alias, i);
      list := AddSelection(list, selected[i], alias);
      i := i + 1;
    }
    assert selected[..i] == selected;
    TypeListProperties(selected, alias);
  }

  /** The body of the loop of `getTransactionTypes` for one selection `s`. */
  method AddSelection(items: seq<TypeItem>, s: string, alias: map<string, string>) returns (list: seq<TypeItem>)
    ensures list == AddType(items, s, alias)
  {
    list := items;
    if s in alias {
      var b := alias[s];
      var k := AliasedAt(list, b);
      if k < |list| {
        list := list[k := Aliased(b, list[k].parameters + [Parameter(b, s)])];
      } else {
        list := list + [Aliased(b, [Parameter(b, s)])];
      }
    } else {
      list := list + [Plain(s)];
    }
  }

  /** Seeing one more selection is one more `AddType`. */
  lemma TypeListStep(selected: seq<string>, alias: map<string, string>, i: nat)
    requires i < |selected|
    ensures TypeList(selected[..i + 1], alias) == AddType(TypeList(selected[..i], alias), selected[i], alias)
  {
    assert selected[..i + 1][..i] == selected[..i];
  }

  /** What the processed list holds, stated without the loop: see `GetTransactionTypes`. */
  lemma TypeListProperties(selected: seq<string>, alias: map<string, string>)
    ensures var list := TypeList(selected, alias);
      PlainTypes(list) == Unaliased(selected, alias) &&
      AliasedOnce(list) &&
      forall b :: ParametersOf(list, b) == SelectionParameters(selected, alias, b)
  {
    forall b
      ensures ParametersOf(TypeList(selected, alias), b) == SelectionParameters(selected, alias, b)
    {
      ParametersOfTypeList(selected, alias, b);
    }
    PlainTypesOfTypeList(selected, alias);
    AliasedOnceTypeList(selected, alias);
  }

  /** The pass-through entries of a processed list, in order. */
  function PlainTypes(items: seq<TypeItem>): seq<string>
  {
    if items == [] then []
    else PlainTypes(items[..|items| - 1]) + (if items[|items| - 1].Plain? then [items[|items| - 1].t] else [])
  }

  /** The selections the alias map does not know, in order. */
  function Unaliased(selected: seq<string>, alias: map<string, string>): seq<string>
  {
    if selected == [] then []
    else
      var s := selected[|selected| - 1];
      Unaliased(selected[..|selected| - 1], alias) + (if s !in alias then [s] else [])
  }

  /** The parameters of the entry for gateway type `b`, none when there is no entry. */
  function ParametersOf(items: seq<TypeItem>, b: string): seq<(string, string)>
  {
    var k := AliasedAt(items, b);
    if k < |items| then items[k].parameters else []
  }

  /** The parameters the selections standing for `b` contribute, in selection order. */
  function SelectionParameters(selected: seq<string>, alias: map<string, string>, b: string): seq<(string, string)>
  {
    if selected == [] then []
    else
      var s := selected[|selected| - 1];
      var own := if s in alias && alias[s] == b then [Parameter(b, s)] else [];
      SelectionParameters(selected[..|selected| - 1], alias, b) + own
  }

  /** No gateway type has two entries. */
  predicate AliasedOnce(items: seq<TypeItem>)
  {
    forall i, j | 0 <= i < j < |items| && items[i].Aliased? && items[j].Aliased? :: items[i].name != items[j].name
  }

  /** Replacing an aliased entry by one of the same name leaves the pass-through entries alone. */
  lemma {:induction false} PlainTypesUpdate(items: seq<TypeItem>, k: nat, x: TypeItem)
    requires k < |items| && items[k].Aliased? && x.Aliased?
    ensures PlainTypes(items[k := x]) == PlainTypes(items)
  {
    var n := |items|;
    if k < n - 1 {
      assert items[k := x][..n - 1] == items[..n - 1][k := x];
      PlainTypesUpdate(items[..n - 1], k, x);
    } else {
      assert items[k := x][..n - 1] == items[..n - 1];
    }
  }

  lemma {:induction false} PlainTypesOfTypeList(selected: seq<string>, alias: map<string, string>)
    ensures PlainTypes(TypeList(selected, alias)) == Unaliased(selected, alias)
  {
    if selected != [] {
      var n := |selected|;
      var items := TypeList(selected[..n - 1], alias);
      var s := selected[n - 1];
      PlainTypesOfTypeList(selected[..n - 1], alias);
      if s in alias {
        var b := alias[s];
        var k := AliasedAt(items, b);
        if k < |items| {
          PlainTypesUpdate(items, k, Aliased(b, items[k].parameters + [Parameter(b, s)]));
        } else {
          assert (items + [Aliased(b, [Parameter(b, s)])])[..|items|] == items;
        }
      } else {
        assert (items + [Plain(s)])[..|items|] == items;
      }
    }
  }

  /** Appending an entry leaves an earlier entry for `b` where it was. */
  lemma {:induction false} AliasedAtAppend(items: seq<TypeItem>, x: TypeItem, b: string)
    ensures AliasedAt(items + [x], b) ==
      if AliasedAt(items, b) < |items| then AliasedAt(items, b)
      else if x.Aliased? && x.name == b then |items|
      else |items| + 1
  {
    if items != [] {
      assert (items + [x])[1..] == items[1..] + [x];
      AliasedAtAppend(items[1..], x, b);
    }
  }

  /** Replacing an aliased entry by one of the same name keeps every type's position. */
  lemma {:induction false} AliasedAtUpdate(items: seq<TypeItem>, k: nat, x: TypeItem, b: string)
    requires k < |items| && items[k].Aliased? && x.Aliased? && x.name == items[k].name
    ensures AliasedAt(items[k := x], b) == AliasedAt(items, b)
  {
    if k > 0 && !(items[0].Aliased? && items[0].name == b) {
      assert items[k := x][1..] == items[1..][k - 1 := x];
      AliasedAtUpdate(items[1..], k - 1, x, b);
    }
  }

  lemma {:induction false} ParametersOfTypeList(selected: seq<string>, alias: map<string, string>, b: string)
    ensures ParametersOf(TypeList(selected, alias), b) == SelectionParameters(selected, alias, b)
  {
    if selected != [] {
      var n := |selected|;
      ParametersOfTypeList(selected[..n - 1], alias, b);
      ParametersOfAddType(TypeList(selected[..n - 1], alias), selected[n - 1], alias, b);
    }
  }

  /** One selection adds its parameter to the entry of the type it stands for, and to no other entry. */
  lemma ParametersOfAddType(items: seq<TypeItem>, s: string, alias: map<string, string>, b: string)
    ensures ParametersOf(AddType(items, s, alias), b) ==
      ParametersOf(items, b) + if s in alias && alias[s] == b then [Parameter(b, s)] else []
  {
    if s in alias {
      var c := alias[s];
      var k := AliasedAt(items, c);
      if k < |items| {
        AliasedAtUpdate(items, k, Aliased(c, items[k].parameters + [Parameter(c, s)]), b);
      } else {
        AliasedAtAppend(items, Aliased(c, [Parameter(c, s)]), b);
      }
    } else {
      AliasedAtAppend(items, Plain(s), b);
    }
  }

  lemma {:induction false} AliasedOnceTypeList(selected: seq<string>, alias: map<string, string>)
    ensures AliasedOnce(TypeList(selected, alias))
  {
    if selected != [] {
      var n := |selected|;
      var items := TypeList(selected[..n - 1], alias);
      AliasedOnceTypeList(selected[..n - 1], alias);
    }
  }

  // ---------------------------------------------------------------------
  // getCustomRequiredAttributes

  /** The `additional` part of the transformed order: the customer's id (0 for a guest) and the user hash. */
  datatype OrderAdditional = OrderAdditional(userId: int, userHash: string)

  /** What the Klarna items are built from. */
  datatype KlarnaOrder = KlarnaOrder(
    currency: string, productInfo: seq<ProductInfo>, ordered: seq<OrderedProduct>,
    totals: seq<OrderTotal>, virtualClass: int)

  /** The attributes a type needs on the payment page. */
  datatype Attributes =
    | NoAttributes
    | CustomerAccountId(hash: string)
    | KlarnaItems(items: Items)
    | UserId(userId: Value)
    | BankCodes(codes: seq<string>)
    | CustomerId(customerId: Value)

  /** The id that names the customer: the customer id when positive, the user hash otherwise. */
  function CustomerIdentity(additional: OrderAdditional): (r: Value)
    ensures additional.userId > 0 <==> r.Int?
    ensures r.Int? ==> r.i == additional.userId && r.i > 0
    ensures r.Str? ==> r.s == additional.userHash
  {
    if additional.userId > 0 then Int(additional.userId) else Str(additional.userHash)
  }

  /** `CommonUtils::isValidArray` on the bank-code setting: an array (`Some`) that is not empty. */
  predicate IsValidArray(codes: Option<seq<string>>)
  {
    codes.Some? && codes.value != []
  }

  /**
   * `getCustomRequiredAttributes`: iDebit and InstaDebit carry the user
   * hash, Klarna its order items, Trustly and paysafecard the customer's
   * identity, online banking the selected bank codes when there are any;
   * every other type carries none.
   */
  method GetCustomRequiredAttributes(transactionType: string, additional: OrderAdditional, klarna: KlarnaOrder,
                                     bankCodes: Option<seq<string>>) returns (r: Attributes)
    ensures transactionType in {Idebit, Instadebit} ==> r == CustomerAccountId(additional.userHash)
    ensures transactionType == Klarna ==>
      r.KlarnaItems? && KlarnaItemsFor(r.items, klarna.currency, klarna.productInfo, klarna.ordered, klarna.totals, klarna.virtualClass)
    ensures transactionType == TrustlySale ==> r == UserId(CustomerIdentity(additional))
    ensures transactionType == Paysafecard ==> r == CustomerId(CustomerIdentity(additional))
    ensures transactionType == OnlineBanking ==> r == if IsValidArray(bankCodes) then BankCodes(bankCodes.value) else NoAttributes
    ensures transactionType !in {Idebit, Instadebit, Klarna, TrustlySale, OnlineBanking, Paysafecard} ==> r == NoAttributes
  {
    r := NoAttributes;
    if transactionType == Idebit || transactionType == Instadebit {
      r := CustomerAccountId(additional.userHash);
    } else if transactionType == Klarna {
      var items := GetKlarnaCustomParamItems(klarna.currency, klarna.productInfo, klarna.ordered, klarna.totals, klarna.virtualClass);
      r := KlarnaItems(items);
    } else if transactionType == TrustlySale {
      r := UserId(CustomerIdentity(additional));
    } else if transactionType == OnlineBanking {
      if IsValidArray(bankCodes) {
        r := BankCodes(bankCodes.value);
      }
    } else if transactionType == Paysafecard {
      r := CustomerId(CustomerIdentity(additional));
    }
  }

  // ---------------------------------------------------------------------
  // getLanguage

  /**
   * `getLanguage`: the session's language (the store's when the session has
   * none) cut to two letters; those letters in lower case when the SDK has
   * an i18n constant for them in upper case, else "en".
   */
  function GetLanguage(sessionLanguage: Option<string>, configLanguage: string, languages: set<string>): (r: string)
  {
    var language := if sessionLanguage.Some? then sessionLanguage.value else configLanguage;
    var code := Prefix(language, 2);
    if Upper(code) in languages then Lower(code) else "en"
  }

  lemma {:induction false} UpperOfLower(s: string)
    ensures Upper(Lower(s)) == Upper(s)
  {
    if s != [] {
      UpperOfLower(s[1..]);
    }
  }

  /**
   * The page language is "en" or a supported code: at most two characters,
   * with no upper-case letter, whose upper-case form the SDK supports, and
   * which is the start of the chosen language up to case; and a supported
   * start of the chosen language is always used, never replaced by "en".
   */
  lemma GetLanguageSupported(sessionLanguage: Option<string>, configLanguage: string, languages: set<string>)
    ensures var r := GetLanguage(sessionLanguage, configLanguage, languages);
      var language := if sessionLanguage.Some? then sessionLanguage.value else configLanguage;
      r == "en" ||
      (|r| <= 2 && Upper(r) in languages && forall k | 0 <= k < |r| :: !('A' <= r[k] <= 'Z') && r[k] == LowerChar(language[k]))
    ensures var r := GetLanguage(sessionLanguage, configLanguage, languages);
      var language := if sessionLanguage.Some? then sessionLanguage.value else configLanguage;
      Upper(Prefix(language, 2)) in languages ==> r == Lower(Prefix(language, 2))
  {
    var language := if sessionLanguage.Some? then sessionLanguage.value else configLanguage;
    UpperOfLower(Prefix(language, 2));
  }
}
