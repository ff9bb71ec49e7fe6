/**
 * The storefront `BaseController` both payment methods extend: store
 * links, the billing and shipping addresses sent to the gateway, the
 * ledger row of a transaction the gateway has just created, and the JSON
 * error answer.
 */
module CatalogBase {
  import opened Php
  import opened Rows
  import opened OpenCart
  import opened DbHelper
  import EmerchantpayHelper
  import AdminModel

  /** PHP's `$v ?? $default` on a cell: the default when the cell is null or unset. */
  function Coalesce(v: Value, default: Value): (r: Value)
    ensures r == Null ==> v == Null && default == Null
    ensures v != Null ==> r == v
  {
    if v == Null then default else v
  }

  // ---------------------------------------------------------------------
  // links

  /** `buildUrl`: the route with "." and the action appended when the action is not `empty`, in the store's language. */
  function BuildUrl(controller: string, action: string, language: string): (r: Link)
    ensures r.query == "language=" + language
    ensures controller <= r.route
    ensures r.route == controller <==> Empty(action)
    ensures !Empty(action) ==> r.route[|controller|..] == [EmerchantpayHelper.ControllerActionSeparator] + action
  {
    var route := if Empty(action) then controller else controller + [EmerchantpayHelper.ControllerActionSeparator] + action;
    Link(route, "language=" + language)
  }

  /** Two non-empty actions on one controller give the same link only when they are the same action. */
  lemma BuildUrlSeparatesActions(controller: string, a: string, b: string, language: string)
    requires !Empty(a) && !Empty(b)
    ensures BuildUrl(controller, a, language) == BuildUrl(controller, b, language) <==> a == b
  {
    if BuildUrl(controller, a, language) == BuildUrl(controller, b, language) {
      var route := BuildUrl(controller, a, language).route;
      assert [EmerchantpayHelper.ControllerActionSeparator] + a == route[|controller|..] == [EmerchantpayHelper.ControllerActionSeparator] + b;
      assert a == ([EmerchantpayHelper.ControllerActionSeparator] + a)[1..];
    }
  }

  /** The action "0" is `empty` in PHP: it links to the bare controller, like no action at all. */
  lemma ZeroActionIsDropped(controller: string, language: string)
    ensures BuildUrl(controller, "0", language) == BuildUrl(controller, "", language)
  {
  }

  /** The route of a payment method's own controller. */
  function ModuleRoute(moduleName: string): string
  {
    "extension/emerchantpay/payment/" + moduleName
  }

  /** The actions the gateway is sent back to: the notification, the success page and the failure page. */
  const ActionUrlKeys := ["notification_url", "return_success_url", "return_failure_url"]
  const ReturnActions := ["callback", "success", "failure"]

  /** `buildActionUrls`: the three gateway URLs, each the method's controller with its action. */
  function BuildActionUrls(moduleName: string, language: string): (r: seq<(string, Link)>)
    ensures |r| == 3
    ensures forall k | 0 <= k < 3 :: r[k].0 == ActionUrlKeys[k] && r[k].1 == BuildUrl(ModuleRoute(moduleName), ReturnActions[k], language)
  {
    seq(3, k requires 0 <= k < 3 => (ActionUrlKeys[k], BuildUrl(ModuleRoute(moduleName), ReturnActions[k], language)))
  }

  /** The three URLs lead to three different actions of the same controller. */
  lemma ActionUrlsDistinct(moduleName: string, language: string)
    ensures forall i, j | 0 <= i < j < 3 :: BuildActionUrls(moduleName, language)[i].1 != BuildActionUrls(moduleName, language)[j].1
    ensures forall k | 0 <= k < 3 :: BuildActionUrls(moduleName, language)[k].1.route == ModuleRoute(moduleName) + "." + ReturnActions[k]
  {
    var r := BuildActionUrls(moduleName, language);
    forall i, j | 0 <= i < j < 3 ensures r[i].1 != r[j].1 {
      BuildUrlSeparatesActions(ModuleRoute(moduleName), ReturnActions[i], ReturnActions[j], language);
    }
  }

  // ---------------------------------------------------------------------
  // the addresses

  /** The `payment_*` or the `shipping_*` fields of an order. */
  datatype AddressFields = AddressFields(firstname: Value, lastname: Value, address1: Value, address2: Value,
                                         postcode: Value, city: Value, zoneCode: Value, isoCode2: Value)

  /** What the plugin reads of `getOrder()`. */
  datatype OrderInfo = OrderInfo(orderId: Value, payment: AddressFields, shipping: AddressFields)

  /** An address as the gateway request takes it. */
  datatype Address = Address(firstName: Value, lastName: Value, address1: Value, address2: Value,
                             zip: Value, city: Value, state: Value, country: Value)

  /** First name, last name and first address line are all non-empty. */
  predicate Complete(a: AddressFields)
  {
    Truthy(a.firstname) && Truthy(a.lastname) && Truthy(a.address1)
  }

  function AddressOf(a: AddressFields): Address
  {
    Address(a.firstname, a.lastname, a.address1, a.address2, a.postcode, a.city, a.zoneCode, a.isoCode2)
  }

  /** An address with name and first line given. */
  predicate Named(a: Address)
  {
    Truthy(a.firstName) && Truthy(a.lastName) && Truthy(a.address1)
  }

  /** `$data['billing']` and `$data['shipping']` as `populateAddresses` writes them. */
  datatype Addresses = Addresses(billing: Address, shipping: Address)

  /**
   * `populateAddresses`: each address is taken from its own fields when
   * they are complete, and from the other address's fields otherwise.
   */
  function PopulateAddresses(order: OrderInfo): (r: Addresses)
    ensures r.billing == AddressOf(if Complete(order.payment) then order.payment else order.shipping)
    ensures r.shipping == AddressOf(if Complete(order.shipping) then order.shipping else order.payment)
  {
    var billing := if Complete(order.payment) then AddressOf(order.payment) else AddressOf(order.shipping);
    var shipping := if Complete(order.shipping) then AddressOf(order.shipping) else AddressOf(order.payment);
    Addresses(billing, shipping)
  }

  /** The rule is symmetric: swapping the order's two addresses swaps billing and shipping. */
  lemma PopulateAddressesSymmetric(order: OrderInfo)
    ensures var swapped := PopulateAddresses(order.(payment := order.shipping, shipping := order.payment));
      swapped.billing == PopulateAddresses(order).shipping && swapped.shipping == PopulateAddresses(order).billing
  {
  }

  /** When either address is complete, both addresses sent are complete; when only one is, both are that one. */
  lemma PopulateAddressesFallBack(order: OrderInfo)
    ensures Complete(order.payment) || Complete(order.shipping) ==>
      Named(PopulateAddresses(order).billing) && Named(PopulateAddresses(order).shipping)
    ensures Complete(order.payment) && !Complete(order.shipping) ==>
      PopulateAddresses(order) == Addresses(AddressOf(order.payment), AddressOf(order.payment))
    ensures !Complete(order.payment) && Complete(order.shipping) ==>
      PopulateAddresses(order) == Addresses(AddressOf(order.shipping), AddressOf(order.shipping))
  {
  }

  // ---------------------------------------------------------------------
  // the customer

  /** `getCustomerId`: 0 for a guest, the customer's id when logged in. */
  function GetCustomerId(logged: bool, customerId: int): (r: int)
    ensures !logged ==> r == 0
    ensures logged ==> r == customerId
  {
    if logged then customerId else 0
  }

  // ---------------------------------------------------------------------
  // a transaction the gateway created

  /**
   * A gateway response object as the storefront reads it; an unset
   * property is `Null`. A `DateTime` timestamp is a `Time` cell: its
   * `format('c')` text is read back by the DATETIME column as the same
   * moment.
   */
  datatype GatewayTransaction = GatewayTransaction(
    uniqueId: Value, transactionType: Value, mode: Value, status: Value, currency: Value, amount: Value,
    timestamp: Value, terminalToken: Value, message: Value, technicalMessage: Value,
    redirectUrl: Value, threedsMethodContinueUrl: Value)

  /**
   * `populateDataUniqIdTrx`: the ledger data of a transaction the gateway
   * has just created for the order.
   */
  function PopulateDataUniqIdTrx(t: GatewayTransaction, order: OrderInfo): (d: Data)
    ensures DistinctKeys(d) && |d| == 10
    ensures d[2] == (UniqueId, t.uniqueId)
  {
    var txType := Coalesce(t.transactionType, Str("checkout"));
    var message := Coalesce(t.message, Str(""));
    var technical := Coalesce(t.technicalMessage, Str(""));
    [(ReferenceId, Str("0")), (OrderId, order.orderId), (UniqueId, t.uniqueId), (Type, txType), (Status, t.status),
     (Message, message), (TechnicalMessage, technical), (Amount, t.amount), (Currency, t.currency), (Timestamp, t.timestamp)]
  }

  /**
   * The row filed from that data: a root of the admin listing (reference
   * '0' is falsy) in the order, typed 'checkout' when the gateway gives no
   * type, with empty messages by default and the gateway's id, status,
   * amount, currency and time; a row a notification already stored keeps
   * its mode and terminal token.
   */
  lemma UniqIdRowStored(rows: map<string, Row>, t: GatewayTransaction, order: OrderInfo)
    ensures var d := PopulateDataUniqIdTrx(t, order);
      var row := Upsert(rows, d)[Text(t.uniqueId)];
      Get(row, ReferenceId) == Str("0") && !Truthy(Get(row, ReferenceId)) &&
      Get(row, OrderId) == StoredValue(order.orderId) && Get(row, UniqueId) == StoredValue(t.uniqueId) &&
      Get(row, Type) == StoredValue(Coalesce(t.transactionType, Str("checkout"))) &&
      Get(row, Status) == StoredValue(t.status) &&
      Get(row, Message) == StoredValue(Coalesce(t.message, Str(""))) &&
      Get(row, TechnicalMessage) == StoredValue(Coalesce(t.technicalMessage, Str(""))) &&
      Get(row, Amount) == StoredValue(t.amount) && Get(row, Currency) == StoredValue(t.currency) &&
      Get(row, Timestamp) == StoredValue(t.timestamp)
  {
    var d := PopulateDataUniqIdTrx(t, order);
    LookupAt(d, 2);
    Filed(rows, d, 0);
    Filed(rows, d, 1);
    Filed(rows, d, 2);
    Filed(rows, d, 3);
    Filed(rows, d, 4);
    Filed(rows, d, 5);
    Filed(rows, d, 6);
    Filed(rows, d, 7);
    Filed(rows, d, 8);
    Filed(rows, d, 9);
  }

  /** A row a notification already stored keeps its mode and terminal token: the data names neither. */
  lemma UniqIdRowKeepsToken(rows: map<string, Row>, t: GatewayTransaction, order: OrderInfo, c: Column)
    requires c == Mode || c == TerminalToken
    requires Text(t.uniqueId) in rows
    ensures var row := Upsert(rows, PopulateDataUniqIdTrx(t, order))[Text(t.uniqueId)];
      (c in row <==> c in rows[Text(t.uniqueId)]) && (c in row ==> row[c] == rows[Text(t.uniqueId)][c])
  {
    var d := PopulateDataUniqIdTrx(t, order);
    UniqIdDataOmits(t, order, c);
    LookupAt(d, 2);
    UpsertUnsupplied(rows, d, c);
  }

  /** The data of a created transaction names neither the mode nor the terminal token. */
  lemma UniqIdDataOmits(t: GatewayTransaction, order: OrderInfo, c: Column)
    requires c == Mode || c == TerminalToken
    ensures c !in KeysOf(PopulateDataUniqIdTrx(t, order))
  {
    var d := PopulateDataUniqIdTrx(t, order);
    var keys := [ReferenceId, OrderId, UniqueId, Type, Status, Message, TechnicalMessage, Amount, Currency, Timestamp];
    assert forall i | 0 <= i < |d| :: d[i].0 == keys[i];
    NotAKey(d, c);
  }

  /** The text of `$exception->getMessage() ?: text_payment_system_error`. */
  function ErrorText(message: string): (r: Said)
    ensures Empty(message) ==> r == Lang("text_payment_system_error")
    ensures !Empty(message) ==> r == Gateway(message)
  {
    if Empty(message) then Lang("text_payment_system_error") else Gateway(message)
  }

  /** `respondWithError`: a JSON body holding only the error. */
  method RespondWithError(response: Response, message: Said)
    modifies response
    ensures response.headers == old(response.headers) + [ContentTypeJson]
    ensures response.output == Some(JsonError(message))
  {
    response.Send(ContentTypeJson, JsonError(message));
  }

  // ---------------------------------------------------------------------
  // what the storefront controllers are given and pass on

  /**
   * What the gateway request of an order confirmation gave: an exception the
   * model rethrows (`ErrorAPI`), an exception the model catches, logs and
   * answers with `false`, or the created transaction.
   */
  datatype Created = CreateThrew(e: Exception) | CreateSwallowed(e: Exception) | CreateAnswered(t: GatewayTransaction)

  /** What a notification request brought: not authentic, authentic with the reconcile object, or an exception on the way. */
  datatype Notification<R> = NotAuthentic | Authentic(reconcile: R) | Threw(e: Exception)

  /** `isset($transaction['order_id']) && abs((int)$transaction['order_id']) > 0` on a row read back (or `false`). */
  predicate Linked(row: Option<Row>)
  {
    row.Some? && IsSet(row.value, OrderId) && AdminModel.Abs(IntOf(row.value[OrderId])) > 0
  }

  /**
   * The calls made into the recurring-order part of the storefront model,
   * which is not part of this model: the order's recurring products
   * registered with the payment reference, the recurring transaction
   * filed, the recurring order updated with the data and the reference.
   */
  datatype RecurringCall = AddOrderRecurring(paymentReference: Value) | PopulateRecurring(data: Data)
    | UpdateRecurring(data: Data, reference: Value)
}
