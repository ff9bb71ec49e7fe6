/**
 * The storefront controller of the hosted payment page (WPF) method: the
 * order confirmation that creates the gateway transaction and files it,
 * and the gateway's notification that reconciles the ledger with the
 * gateway, files the payment the page produced under it, and moves the
 * order to its paid or failed status.
 */
module CheckoutController {
  import opened Php
  import opened Rows
  import opened OpenCart
  import opened DbHelper
  import opened CatalogBase
  import CheckoutModel
  import AdminModel
  import Genesis
  import EmerchantpayHelper

  // ---------------------------------------------------------------------
  // the reconcile object

  /** A transaction as the reconcile object reports it; an unset property is `Null`. */
  datatype Payment = Payment(
    uniqueId: Value, transactionType: Value, mode: Value, status: Value, currency: Value, amount: Value,
    timestamp: Value, terminalToken: Value, message: Value, technicalMessage: Value)

  /**
   * The reconcile's `payment_transaction`: unset, one object, or an
   * `ArrayObject` of them (when the payment has reference transactions).
   * An empty `ArrayObject` is not modelled: its element 0 does not exist.
   */
  datatype Nested = Absent | Single(t: Payment) | Many(first: Payment, rest: seq<Payment>)

  /** The reconciled WPF transaction: its own properties and the payments under it. */
  datatype Reconcile = Reconcile(own: Payment, payment: Nested)

  /** The payments a nested `payment_transaction` holds, in order. */
  function Payments(n: Nested): seq<Payment>
  {
    match n
    case Absent => []
    case Single(t) => [t]
    case Many(first, rest) => [first] + rest
  }

  /**
   * `getPaymentTransaction`: the first payment the reconcile reports, and
   * the reconcile itself when it reports none.
   */
  function GetPaymentTransaction(rec: Reconcile): (r: Payment)
    ensures Payments(rec.payment) == [] ==> r == rec.own
    ensures Payments(rec.payment) != [] ==> r == Payments(rec.payment)[0]
  {
    match rec.payment
    case Absent => rec.own
    case Single(t) => t
    case Many(first, _) => first
  }

  // ---------------------------------------------------------------------
  // the ledger writes of a notification

  /**
   * The root data of a notification: exactly the WPF transaction's id,
   * status, currency, amount and time.
   */
  function RootData(rec: Reconcile): (d: Data)
    ensures DistinctKeys(d) && |d| == 5 && d[0] == (UniqueId, rec.own.uniqueId)
    ensures KeysOf(d) == {UniqueId, Status, Currency, Amount, Timestamp}
  {
    var d := [(UniqueId, rec.own.uniqueId), (Status, rec.own.status), (Currency, rec.own.currency),
              (Amount, rec.own.amount), (Timestamp, rec.own.timestamp)];
    assert forall c :: c in KeysOf(d) <==> c in {UniqueId, Status, Currency, Amount, Timestamp} by {
      assert d[0].0 == UniqueId && d[1].0 == Status && d[2].0 == Currency && d[3].0 == Amount && d[4].0 == Timestamp;
    }
    d
  }

  /**
   * The data of the payment filed under the WPF transaction: the root
   * row's order, the WPF transaction as its parent, and the payment's own
   * fields, an unset token or message becoming ''.
   */
  function PaymentData(orderId: Value, referenceId: Value, p: Payment): (d: Data)
    ensures DistinctKeys(d) && |d| == 12 && d[2] == (UniqueId, p.uniqueId)
  {
    [(OrderId, orderId), (ReferenceId, referenceId), (UniqueId, p.uniqueId), (Type, p.transactionType),
     (Mode, p.mode), (Status, p.status), (Currency, p.currency), (Amount, p.amount), (Timestamp, p.timestamp),
     (TerminalToken, Coalesce(p.terminalToken, Str(""))), (Message, Coalesce(p.message, Str(""))),
     (TechnicalMessage, Coalesce(p.technicalMessage, Str("")))]
  }

  /** The catalog model's `getTransactionById` on the rows: nothing for an empty id. */
  function Found(rows: map<string, Row>, id: Value): (r: Option<Row>)
    ensures r.Some? <==> Truthy(id) && Text(id) in rows
    ensures r.Some? ==> r.value == rows[Text(id)]
  {
    if Truthy(id) && Text(id) in rows then Some(rows[Text(id)]) else None
  }

  /** `isInitialRecurringTransaction`: the type is one of the initial recurring types. */
  predicate InitialRecurring(transactionType: Value)
  {
    transactionType.Str? && transactionType.s in EmerchantpayHelper.RecurringTransactionTypes
  }

  /** The order statuses the module is configured with. */
  datatype Statuses = Statuses(success: int, failure: int)

  /**
   * The history entry the notification's status adds to the order: the
   * configured success status for an approved payment and the failure
   * status for a declined or failed one, the customer notified either
   * way; no entry for any other status.
   */
  function StatusEntry(status: Value, orderId: Value, statuses: Statuses): (r: Option<History>)
    ensures r.Some? <==> status in {Str(Genesis.Approved), Str(Genesis.Declined), Str(Genesis.Error)}
    ensures r.Some? ==> r.value.orderId == IntOf(orderId) && r.value.notify
    ensures r.Some? ==> (r.value.comment == "text_payment_status_successful" <==> status == Str(Genesis.Approved))
    ensures r.Some? && status == Str(Genesis.Approved) ==> r.value.statusId == statuses.success
    ensures r.Some? && status != Str(Genesis.Approved) ==> r.value.statusId == statuses.failure
  {
    if status == Str(Genesis.Approved) then
      Some(History(IntOf(orderId), statuses.success, "text_payment_status_successful", true))
    else if status == Str(Genesis.Declined) || status == Str(Genesis.Error) then
      Some(History(IntOf(orderId), statuses.failure, "text_payment_status_unsuccessful", true))
    else None
  }

  /** What a notification leaves behind, besides the acknowledgement it always answers with. */
  datatype Outcome = Outcome(ledger: Ledger, history: Option<History>, calls: seq<RecurringCall>)

  /** The root row as the notification reads it back after filing the root data. */
  function RootRow(db: DbHelper, l: Ledger, rec: Reconcile, rootFailure: Option<Exception>): Option<Row>
  {
    Found(Write(db, l, RootData(rec), rootFailure).rows, rec.own.uniqueId)
  }

  /** The payment is filed: the root row belongs to an order and the reconcile reports a payment. */
  predicate PaymentFiled(row: Option<Row>, rec: Reconcile)
  {
    Linked(row) && !rec.payment.Absent?
  }

  /** The data filed last: the payment's when it was filed, the root data otherwise. */
  function LastData(row: Option<Row>, rec: Reconcile): (d: Data)
    ensures DistinctKeys(d)
  {
    if PaymentFiled(row, rec) then PaymentData(row.value[OrderId], rec.own.uniqueId, GetPaymentTransaction(rec))
    else RootData(rec)
  }

  /** The recurring reference: the filed payment's id when it is an initial recurring one, null otherwise. */
  function Reference(row: Option<Row>, rec: Reconcile): (r: Value)
    ensures PaymentFiled(row, rec) && InitialRecurring(GetPaymentTransaction(rec).transactionType) ==>
      r == GetPaymentTransaction(rec).uniqueId
    ensures !(PaymentFiled(row, rec) && InitialRecurring(GetPaymentTransaction(rec).transactionType)) ==> r == Null
  {
    var p := GetPaymentTransaction(rec);
    if PaymentFiled(row, rec) && InitialRecurring(p.transactionType) then p.uniqueId else Null
  }

  /** The history entry: only for a root row that belongs to an order. */
  function Entry(row: Option<Row>, rec: Reconcile, statuses: Statuses): Option<History>
  {
    if Linked(row) then StatusEntry(rec.own.status, row.value[OrderId], statuses) else None
  }

  /** The recurring calls of `callback`. */
  function CallbackCalls(data: Data, reference: Value, recurring: bool): seq<RecurringCall>
  {
    if recurring then [PopulateRecurring(data), UpdateRecurring(data, reference)] else []
  }

  /**
   * The reconciliation an authentic notification performs, step by step:
   * file the root data; when the row read back belongs to an order, file
   * the payment under it (if the reconcile reports one) and add the
   * status's history entry; for a recurring order pass the last data filed
   * and the reference on to the recurring bookkeeping.
   */
  function Reconciliation(db: DbHelper, l: Ledger, rec: Reconcile, statuses: Statuses, recurring: bool,
                          rootFailure: Option<Exception>, paymentFailure: Option<Exception>): (o: Outcome)
  {
    var l1 := Write(db, l, RootData(rec), rootFailure);
    var row := Found(l1.rows, rec.own.uniqueId);
    var l2 := if PaymentFiled(row, rec) then Write(db, l1, LastData(row, rec), paymentFailure) else l1;
    Outcome(l2, Entry(row, rec, statuses), CallbackCalls(LastData(row, rec), Reference(row, rec), recurring))
  }

  /**
   * The root write names only the id, status, currency, amount and time:
   * a row already filed keeps every other column (its order, its parent,
   * its type, its token) as it was.
   */
  lemma RootWriteKeepsColumns(db: DbHelper, l: Ledger, rec: Reconcile, rootFailure: Option<Exception>, c: Column)
    requires c !in KeysOf(RootData(rec))
    requires Text(rec.own.uniqueId) in l.rows
    ensures var before := l.rows[Text(rec.own.uniqueId)];
      var after := Write(db, l, RootData(rec), rootFailure).rows[Text(rec.own.uniqueId)];
      (c in after <==> c in before) && (c in after ==> after[c] == before[c])
  {
    var root := RootData(rec);
    LookupAt(root, 0);
    assert RowText(root) == Text(rec.own.uniqueId);
    WriteKeepsUnnamed(db, l, root, rootFailure, c);
  }

  /**
   * A filed payment is a child of the WPF transaction in the same order:
   * its parent is the reconciled id, its order the root row's, its token
   * '' when the gateway gave none.
   */
  lemma PaymentFiledUnderRoot(db: DbHelper, l: Ledger, rec: Reconcile, statuses: Statuses, recurring: bool,
                              rootFailure: Option<Exception>, paymentFailure: Option<Exception>)
    requires PaymentFiled(RootRow(db, l, rec, rootFailure), rec)
    requires db.WriteError(LastData(RootRow(db, l, rec, rootFailure), rec), paymentFailure).None?
    ensures var row := RootRow(db, l, rec, rootFailure);
      var p := GetPaymentTransaction(rec);
      var rows := Reconciliation(db, l, rec, statuses, recurring, rootFailure, paymentFailure).ledger.rows;
      Text(p.uniqueId) in rows &&
      Get(rows[Text(p.uniqueId)], ReferenceId) == StoredValue(rec.own.uniqueId) &&
      Get(rows[Text(p.uniqueId)], OrderId) == row.value[OrderId] &&
      Get(rows[Text(p.uniqueId)], UniqueId) == StoredValue(p.uniqueId) &&
      Get(rows[Text(p.uniqueId)], Type) == StoredValue(p.transactionType) &&
      Get(rows[Text(p.uniqueId)], Status) == StoredValue(p.status) &&
      Get(rows[Text(p.uniqueId)], TerminalToken) == StoredValue(Coalesce(p.terminalToken, Str("")))
  {
    var row := RootRow(db, l, rec, rootFailure);
    var l1 := Write(db, l, RootData(rec), rootFailure);
    var d := LastData(row, rec);
    LookupAt(d, 2);
    Filed(l1.rows, d, 0);
    Filed(l1.rows, d, 1);
    Filed(l1.rows, d, 2);
    Filed(l1.rows, d, 3);
    Filed(l1.rows, d, 5);
    Filed(l1.rows, d, 9);
  }

  /**
   * A notification whose root row belongs to no order files only the root
   * data, adds no history and passes the root data on with no reference.
   */
  lemma UnlinkedNotification(db: DbHelper, l: Ledger, rec: Reconcile, statuses: Statuses, recurring: bool,
                             rootFailure: Option<Exception>, paymentFailure: Option<Exception>)
    requires !Linked(RootRow(db, l, rec, rootFailure))
    ensures var o := Reconciliation(db, l, rec, statuses, recurring, rootFailure, paymentFailure);
      o.ledger == Write(db, l, RootData(rec), rootFailure) && o.history.None? &&
      o.calls == CallbackCalls(RootData(rec), Null, recurring)
  {
  }

  /**
   * Replaying a notification the ledger took without errors leaves the
   * ledger as it is (the root and the payment are upserts, and the root
   * row read back is the same), but adds the same history entry and makes
   * the same recurring calls again. The checkout table has every column;
   * the payment is another transaction than the WPF one.
   */
  lemma ReplayKeepsLedger(db: DbHelper, l: Ledger, rec: Reconcile, statuses: Statuses, recurring: bool)
    requires forall c: Column :: c in db.columns
    requires Text(GetPaymentTransaction(rec).uniqueId) != Text(rec.own.uniqueId)
    ensures var once := Reconciliation(db, l, rec, statuses, recurring, None, None);
      var twice := Reconciliation(db, once.ledger, rec, statuses, recurring, None, None);
      twice.ledger == once.ledger && twice.history == once.history && twice.calls == once.calls
  {
    var l1 := Write(db, l, RootData(rec), None);
    var row := Found(l1.rows, rec.own.uniqueId);
    var l2 := if PaymentFiled(row, rec) then Write(db, l1, LastData(row, rec), None) else l1;
    PaymentKeepsRoot(db, l1, rec, row);
    RootAgain(db, l, l2, rec);
    if PaymentFiled(row, rec) {
      WriteAgain(db, l1, l2, LastData(row, rec));
    }
  }

  /** The payment write does not touch the root row. */
  lemma PaymentKeepsRoot(db: DbHelper, l1: Ledger, rec: Reconcile, row: Option<Row>)
    requires Text(GetPaymentTransaction(rec).uniqueId) != Text(rec.own.uniqueId)
    requires Text(rec.own.uniqueId) in l1.rows
    ensures var l2 := if PaymentFiled(row, rec) then Write(db, l1, LastData(row, rec), None) else l1;
      Text(rec.own.uniqueId) in l2.rows && l2.rows[Text(rec.own.uniqueId)] == l1.rows[Text(rec.own.uniqueId)]
  {
    if PaymentFiled(row, rec) {
      var d := LastData(row, rec);
      LookupAt(d, 2);
      UpsertOthers(l1.rows, d);
    }
  }

  /** Filing the root data again over a row that holds what the first filing made of it changes nothing. */
  lemma RootAgain(db: DbHelper, l: Ledger, l2: Ledger, rec: Reconcile)
    requires forall c: Column :: c in db.columns
    requires var l1 := Write(db, l, RootData(rec), None);
      Text(rec.own.uniqueId) in l2.rows && Text(rec.own.uniqueId) in l1.rows &&
      l2.rows[Text(rec.own.uniqueId)] == l1.rows[Text(rec.own.uniqueId)]
    ensures Write(db, l2, RootData(rec), None) == l2
  {
    var root := RootData(rec);
    LookupAt(root, 0);
    assert RowText(root) == Text(rec.own.uniqueId);
    WriteOver(db, l, l2, root);
  }

  // ---------------------------------------------------------------------
  // the order confirmation

  /**
   * `getCurrentUserIdHash`: at most `length` characters, taken from the
   * SHA-1 of the customer's id when one is logged in and from a freshly
   * generated id (`genTransactionId()`, from the 32-character `hash`)
   * otherwise.
   */
  function GetCurrentUserIdHash(logged: bool, customerId: int, sha1: string -> string, hash: string, length: nat): (r: string)
    requires |hash| == 32
    ensures |r| <= length
    ensures GetCustomerId(logged, customerId) > 0 ==> r <= sha1(IntToString(customerId))
    ensures GetCustomerId(logged, customerId) <= 0 ==> r <= hash
  {
    var userId := GetCustomerId(logged, customerId);
    var userHash := if userId > 0 then sha1(IntToString(userId)) else AdminModel.GenTransactionId("", hash);
    Prefix(userHash, length)
  }

  /**
   * The hash's length: with the default length 30, a SHA-1 (40 hex
   * digits) or a generated id (32 characters) is cut to exactly 30.
   */
  lemma UserHashIsThirtyCharacters(logged: bool, customerId: int, sha1: string -> string, hash: string)
    requires |hash| == 32
    requires |sha1(IntToString(customerId))| == 40
    ensures |GetCurrentUserIdHash(logged, customerId, sha1, hash, 30)| == 30
    ensures GetCustomerId(logged, customerId) <= 0 ==> GetCurrentUserIdHash(logged, customerId, sha1, hash, 30) == hash[..30]
  {
    var r := GetCurrentUserIdHash(logged, customerId, sha1, hash, 30);
    if GetCustomerId(logged, customerId) <= 0 {
      assert AdminModel.GenTransactionId("", hash) == hash;
    }
  }

  // ---------------------------------------------------------------------
  // the controller

  class Checkout {
    const db: DbHelper
    const shop: Shop
    const response: Response
    const statuses: Statuses
    /** The calls into the recurring bookkeeping, oldest first. */
    var recurringCalls: seq<RecurringCall>

    constructor(db: DbHelper, shop: Shop, response: Response, statuses: Statuses)
      ensures this.db == db && this.shop == shop && this.response == response && this.statuses == statuses
      ensures recurringCalls == []
    {
      this.db := db;
      this.shop := shop;
      this.response := response;
      this.statuses := statuses;
      recurringCalls := [];
    }

    /**
     * `callback`: a notification that is not authentic changes nothing and
     * answers nothing; one that throws on the way is only logged; an
     * authentic one performs the `Reconciliation` and is acknowledged in
     * XML with the reconciled transaction's id, whether or not it belongs
     * to an order.
     */
    method Callback(notification: Notification<Reconcile>, recurring: bool,
                    rootFailure: Option<Exception>, paymentFailure: Option<Exception>)
      requires db.Valid()
      modifies db`ids, db`rows, db`log, shop`orderStatus, shop`history, response, this`recurringCalls
      ensures db.Valid()
      ensures !notification.Authentic? ==>
        db.rows == old(db.rows) && db.ids == old(db.ids) && shop.history == old(shop.history) &&
        shop.orderStatus == old(shop.orderStatus) && recurringCalls == old(recurringCalls) &&
        response.headers == old(response.headers) && response.output == old(response.output)
      ensures notification.NotAuthentic? ==> db.log == old(db.log)
      ensures notification.Threw? ==> db.log == old(db.log) + db.LogLines(notification.e)
      ensures notification.Authentic? ==>
        var o := Reconciliation(db, old(db.State()), notification.reconcile, statuses, recurring, rootFailure, paymentFailure);
        db.State() == o.ledger &&
        shop.history == old(shop.history) + (if o.history.Some? then [o.history.value] else []) &&
        shop.orderStatus == Applied(old(shop.orderStatus), o.history) &&
        recurringCalls == old(recurringCalls) + o.calls &&
        response.headers == old(response.headers) + [ContentTypeXml] &&
        response.output == Some(Acknowledgement(notification.reconcile.own.uniqueId))
    {
      match notification
      case NotAuthentic =>
      case Threw(e) =>
        db.LogEx(e);
      case Authentic(rec) =>
        Reconcile(rec, recurring, rootFailure, paymentFailure);
    }

    /** The authentic path of `callback`: the `Reconciliation` and the acknowledgement. */
    method Reconcile(rec: Reconcile, recurring: bool, rootFailure: Option<Exception>, paymentFailure: Option<Exception>)
      requires db.Valid()
      modifies db`ids, db`rows, db`log, shop`orderStatus, shop`history, response, this`recurringCalls
      ensures db.Valid()
      ensures var o := Reconciliation(db, old(db.State()), rec, statuses, recurring, rootFailure, paymentFailure);
        db.State() == o.ledger &&
        shop.history == old(shop.history) + (if o.history.Some? then [o.history.value] else []) &&
        shop.orderStatus == Applied(old(shop.orderStatus), o.history) &&
        recurringCalls == old(recurringCalls) + o.calls
      ensures response.headers == old(response.headers) + [ContentTypeXml]
      ensures response.output == Some(Acknowledgement(rec.own.uniqueId))
    {
      ghost var o := Reconciliation(db, db.State(), rec, statuses, recurring, rootFailure, paymentFailure);
      var data, reference := FileNotification(rec, recurring, rootFailure, paymentFailure);
      if recurring {
        recurringCalls := recurringCalls + [PopulateRecurring(data), UpdateRecurring(data, reference)];
      }
      assert recurringCalls == old(recurringCalls) + o.calls;
      response.Send(ContentTypeXml, Acknowledgement(rec.own.uniqueId));
    }

    /**
     * The ledger and history part of the reconciliation; gives the data
     * filed last and the recurring reference.
     */
    method FileNotification(rec: Reconcile, ghost recurring: bool, rootFailure: Option<Exception>, paymentFailure: Option<Exception>)
      returns (data: Data, reference: Value)
      requires db.Valid()
      modifies db`ids, db`rows, db`log, shop`orderStatus, shop`history
      ensures db.Valid()
      ensures var o := Reconciliation(db, old(db.State()), rec, statuses, recurring, rootFailure, paymentFailure);
        db.State() == o.ledger && o.calls == CallbackCalls(data, reference, recurring) &&
        shop.history == old(shop.history) + (if o.history.Some? then [o.history.value] else []) &&
        shop.orderStatus == Applied(old(shop.orderStatus), o.history)
    {
      var transaction := FileRoot(rec, rootFailure);
      data, reference := FilePayment(rec, transaction, paymentFailure);
      AddStatusHistory(rec, transaction);
    }

    /** Files the root data and reads the root row back. */
    method FileRoot(rec: Reconcile, rootFailure: Option<Exception>) returns (transaction: Option<Row>)
      requires db.Valid()
      modifies db`ids, db`rows, db`log
      ensures db.Valid()
      ensures db.State() == Write(db, old(db.State()), RootData(rec), rootFailure)
      ensures transaction == RootRow(db, old(db.State()), rec, rootFailure)
    {
      db.PopulateTransaction(RootData(rec), rootFailure);
      transaction := CheckoutModel.GetTransactionById(db, rec.own.uniqueId);
    }

    /** Files the payment under the root row when the row belongs to an order and the reconcile reports one. */
    method FilePayment(rec: Reconcile, transaction: Option<Row>, paymentFailure: Option<Exception>)
      returns (data: Data, reference: Value)
      requires db.Valid()
      modifies db`ids, db`rows, db`log
      ensures db.Valid()
      ensures db.State() == if PaymentFiled(transaction, rec) then Write(db, old(db.State()), LastData(transaction, rec), paymentFailure)
        else old(db.State())
      ensures data == LastData(transaction, rec) && reference == Reference(transaction, rec)
    {
      data := LastData(transaction, rec);
      reference := Reference(transaction, rec);
      if PaymentFiled(transaction, rec) {
        db.PopulateTransaction(data, paymentFailure);
      }
    }

    /** The `switch` on the reconciled status, for a root row that belongs to an order. */
    method AddStatusHistory(rec: Reconcile, transaction: Option<Row>)
      modifies shop`orderStatus, shop`history
      ensures var entry := Entry(transaction, rec, statuses);
        shop.history == old(shop.history) + (if entry.Some? then [entry.value] else []) &&
        shop.orderStatus == Applied(old(shop.orderStatus), entry)
    {
      var entry := Entry(transaction, rec, statuses);
      if entry.Some? {
        shop.Record(entry.value.orderId, entry.value.statusId, entry.value.comment, entry.value.notify);
      }
    }

    /**
     * `prepareRedirect`: file the created transaction as a root of the
     * order's ledger, move the order to the configured status with the
     * "initiated" comment (customer notified), and for a recurring order
     * register its recurring products and file the data with no reference.
     */
    method PrepareRedirect(t: GatewayTransaction, order: OrderInfo, sessionOrderId: Value, recurring: bool,
                           recurringProducts: bool, failure: Option<Exception>)
      requires db.Valid()
      modifies db`ids, db`rows, db`log, shop`orderStatus, shop`history, this`recurringCalls
      ensures db.Valid()
      ensures db.State() == Write(db, old(db.State()), PopulateDataUniqIdTrx(t, order), failure)
      ensures shop.history == old(shop.history) + [Initiated(sessionOrderId, statuses)]
      ensures shop.orderStatus == Applied(old(shop.orderStatus), Some(Initiated(sessionOrderId, statuses)))
      ensures recurringCalls == old(recurringCalls) + RedirectCalls(PopulateDataUniqIdTrx(t, order), recurring, recurringProducts)
    {
      var data := PopulateDataUniqIdTrx(t, order);
      db.PopulateTransaction(data, failure);
      RecordInitiated(sessionOrderId);
      AddRedirectCalls(data, recurring, recurringProducts);
    }

    /** The "initiated" history entry of `prepareRedirect`. */
    method RecordInitiated(sessionOrderId: Value)
      modifies shop`orderStatus, shop`history
      ensures shop.history == old(shop.history) + [Initiated(sessionOrderId, statuses)]
      ensures shop.orderStatus == Applied(old(shop.orderStatus), Some(Initiated(sessionOrderId, statuses)))
    {
      shop.Record(IntOf(sessionOrderId), statuses.success, "text_payment_status_initiated", true);
    }

    /** The recurring part of `prepareRedirect`. */
    method AddRedirectCalls(data: Data, recurring: bool, recurringProducts: bool)
      modifies this`recurringCalls
      ensures recurringCalls == old(recurringCalls) + RedirectCalls(data, recurring, recurringProducts)
    {
      if recurring {
        if recurringProducts {
          recurringCalls := recurringCalls + [AddOrderRecurring(Null)];
        }
        recurringCalls := recurringCalls + [PopulateRecurring(data), UpdateRecurring(data, Null)];
      }
    }

    /**
     * `send`: without an order in the session only the error "Incorrect
     * call!" is answered; an exception from building or creating the
     * transaction is answered with its message (or the generic error) and
     * logged, nothing filed; one the model catches is logged there and
     * answered with the generic error; a created transaction with an id is filed by
     * `PrepareRedirect` and the browser sent to the gateway's page; one
     * without an id is answered with the generic error, nothing filed.
     */
    method Send(sessionOrderId: Option<Value>, order: OrderInfo, created: Created, recurring: bool,
                recurringProducts: bool, failure: Option<Exception>)
      requires db.Valid()
      modifies db`ids, db`rows, db`log, shop`orderStatus, shop`history, response, this`recurringCalls
      ensures db.Valid()
      ensures response.headers == old(response.headers) + [ContentTypeJson]
      ensures response.output == Some(SendAnswer(sessionOrderId, created))
      ensures !Redirected(sessionOrderId, created) ==>
        db.rows == old(db.rows) && db.ids == old(db.ids) && shop.history == old(shop.history) &&
        shop.orderStatus == old(shop.orderStatus) && recurringCalls == old(recurringCalls)
      ensures !Redirected(sessionOrderId, created) ==>
        db.log == old(db.log) + (if sessionOrderId.Some? && !created.CreateAnswered? then db.LogLines(created.e) else [])
      ensures Redirected(sessionOrderId, created) ==>
        db.State() == Write(db, old(db.State()), PopulateDataUniqIdTrx(created.t, order), failure) &&
        shop.history == old(shop.history) + [Initiated(sessionOrderId.value, statuses)] &&
        shop.orderStatus == Applied(old(shop.orderStatus), Some(Initiated(sessionOrderId.value, statuses))) &&
        recurringCalls == old(recurringCalls) + RedirectCalls(PopulateDataUniqIdTrx(created.t, order), recurring, recurringProducts)
    {
      if sessionOrderId.None? {
        RespondWithError(response, Gateway("Incorrect call!"));
        return;
      }
      match created
      case CreateThrew(e) =>
        RespondWithError(response, ErrorText(e.message));
        db.LogEx(e);
      case CreateSwallowed(e) =>
        db.LogEx(e);
        response.Send(ContentTypeJson, JsonError(Lang("text_payment_system_error")));
      case CreateAnswered(t) =>
        if t.uniqueId != Null {
          PrepareRedirect(t, order, sessionOrderId.value, recurring, recurringProducts, failure);
          response.Send(ContentTypeJson, JsonRedirect(External(t.redirectUrl)));
        } else {
          response.Send(ContentTypeJson, JsonError(Lang("text_payment_system_error")));
        }
    }
  }

  /** The history entry of a confirmed order: the configured status, the "initiated" comment, the customer notified. */
  function Initiated(sessionOrderId: Value, statuses: Statuses): History
  {
    History(IntOf(sessionOrderId), statuses.success, "text_payment_status_initiated", true)
  }

  /** The recurring calls of `prepareRedirect`. */
  function RedirectCalls(data: Data, recurring: bool, recurringProducts: bool): seq<RecurringCall>
  {
    if !recurring then []
    else (if recurringProducts then [AddOrderRecurring(Null)] else []) + [PopulateRecurring(data), UpdateRecurring(data, Null)]
  }

  /** The confirmation reaches the gateway's page: an order in the session and a created transaction with an id. */
  predicate Redirected(sessionOrderId: Option<Value>, created: Created)
  {
    sessionOrderId.Some? && created.CreateAnswered? && created.t.uniqueId != Null
  }

  /** The JSON `send` answers with. */
  function SendAnswer(sessionOrderId: Option<Value>, created: Created): (r: Output)
    ensures r.JsonRedirect? <==> Redirected(sessionOrderId, created)
    ensures sessionOrderId.None? ==> r == JsonError(Gateway("Incorrect call!"))
    ensures r.JsonRedirect? ==> r.redirect == External(created.t.redirectUrl)
    ensures sessionOrderId.Some? && created.CreateSwallowed? ==> r == JsonError(Lang("text_payment_system_error"))
  {
    if sessionOrderId.None? then JsonError(Gateway("Incorrect call!"))
    else match created
      case CreateThrew(e) => JsonError(ErrorText(e.message))
      case CreateSwallowed(_) => JsonError(Lang("text_payment_system_error"))
      case CreateAnswered(t) =>
        if t.uniqueId != Null then JsonRedirect(External(t.redirectUrl)) else JsonError(Lang("text_payment_system_error"))
  }
}
