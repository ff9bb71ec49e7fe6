/**
 * The storefront controller of the direct method (the card entered on the
 * store's own page): the card fields read from the form, the order
 * confirmation that sends the payment, files it and acts on its status at
 * once, and the gateway's notification that files the reconciled state of
 * a transaction the ledger already holds for an order.
 */
module DirectController {
  import opened Php
  import opened Rows
  import opened OpenCart
  import opened DbHelper
  import opened CatalogBase
  import DirectModel
  import Genesis
  import CardExpiry

  // ---------------------------------------------------------------------
  // the card fields

  /** The field types `inputFilter` tells apart; `Other` is any other type, the holder's name among them. */
  datatype FieldKind = Number | Cvv | Year | Month | Other


  /**
   * `inputFilter(input, type)`: a card number loses its spaces, a CVV is
   * taken as it is; the year of an expiry "M/Y" (exactly one '/') is the
   * trimmed Y, prefixed with "20" when it has two characters and cut to
   * four otherwise; the month is the trimmed M cut to two characters when
   * it is not empty (PHP's truthiness: neither "" nor "0"); every other
   * case, the holder's name among them, is the trimmed input.
   */
  function InputFilter(input: string, kind: FieldKind): (r: string)
    ensures kind == Number ==> ' ' !in r && forall c | c != ' ' :: multiset(r)[c] == multiset(input)[c]
    ensures kind == Number ==> r == RemoveSpaces(input)
    ensures kind == Cvv ==> r == input
    ensures kind == Year ==> r == YearField(Explode('/', input), input)
    ensures kind == Month ==> r == MonthField(Explode('/', input), input)
    ensures kind == Other ==> r == Trim(input)
  {
    match kind
    case Number => RemoveSpaces(input)
    case Cvv => input
    case Year => YearField(Explode('/', input), input)
    case Month => MonthField(Explode('/', input), input)
    case Other => Trim(input)
  }

  /**
   * The year of the expiry split at '/': with exactly two parts, the
   * trimmed second part, "20" in front when it has two characters and cut
   * to four otherwise; with any other count, the trimmed input.
   */
  function YearField(expire: seq<string>, input: string): (r: string)
    ensures |expire| == 2 && |Trim(expire[1])| == 2 ==> r == "20" + Trim(expire[1])
    ensures |expire| == 2 && |Trim(expire[1])| != 2 ==> r <= Trim(expire[1]) && |r| == Min(|Trim(expire[1])|, 4)
    ensures |expire| != 2 ==> r == Trim(input)
  {
    if |expire| == 2 then
      var year := Trim(expire[1]);
      if |year| == 2 then "20" + year else Prefix(year, 4)
    else Trim(input)
  }

  /**
   * The month of the expiry split at '/': with exactly two parts whose
   * trimmed first part is not empty to PHP (neither "" nor "0"), that part
   * cut to two characters; otherwise the trimmed input.
   */
  function MonthField(expire: seq<string>, input: string): (r: string)
    ensures |expire| == 2 && !Empty(Trim(expire[0])) ==> r <= Trim(expire[0]) && |r| == Min(|Trim(expire[0])|, 2)
    ensures !(|expire| == 2 && !Empty(Trim(expire[0]))) ==> r == Trim(input)
  {
    if |expire| == 2 && !Empty(Trim(expire[0])) then Prefix(Trim(expire[0]), 2)
    else Trim(input)
  }

  function Min(a: int, b: int): int
  {
    if a < b then a else b
  }

  /** The characters of `s` are neither '/' nor white space to PHP's `trim` or to the page script. */
  predicate PlainField(s: string)
  {
    s == [] || (PlainChar(s[0]) && PlainField(s[1..]))
  }

  predicate PlainChar(c: char)
  {
    c != '/' && !IsTrimChar(c) && !CardExpiry.IsJsSpace(c)
  }

  /** Every character of a plain field is plain. */
  lemma {:induction false} PlainChars(s: string)
    requires PlainField(s)
    ensures forall k | 0 <= k < |s| :: PlainChar(s[k])
  {
    if s != [] {
      PlainChars(s[1..]);
      forall k | 0 <= k < |s|
        ensures PlainChar(s[k])
      {
        if k > 0 {
          assert s[k] == s[1..][k - 1];
        }
      }
    }
  }

  /**
   * An expiry typed as "MM/YY" (a month of one or two characters other
   * than "0", a two-character year) gives the month as typed and the year
   * "20YY".
   */
  lemma {:induction false} InputFilterOfMonthYear(month: string, year: string)
    requires PlainField(month) && PlainField(year)
    requires 1 <= |month| <= 2 && month != "0" && |year| == 2
    ensures InputFilter(month + "/" + year, Month) == month
    ensures InputFilter(month + "/" + year, Year) == "20" + year
  {
    MonthYearParts(month, year);
    MonthOfParts(month, year, month + "/" + year);
    ShortYearOfParts(month, year, month + "/" + year);
  }

  /** The month field of two parts whose month is trimmed, not empty to PHP and at most two characters. */
  lemma MonthOfParts(month: string, year: string, input: string)
    requires Trim(month) == month && !Empty(month) && |month| <= 2
    ensures MonthField([month, year], input) == month
  {
  }

  /** The year field of two parts whose year is trimmed and of two characters. */
  lemma ShortYearOfParts(month: string, year: string, input: string)
    requires Trim(year) == year && |year| == 2
    ensures YearField([month, year], input) == "20" + year
  {
  }

  /** An expiry "M/Y" of plain fields splits into M and Y, each its own trim. */
  lemma MonthYearParts(month: string, year: string)
    requires PlainField(month) && PlainField(year)
    ensures Explode('/', month + "/" + year) == [month, year]
    ensures Trim(month) == month && Trim(year) == year
  {
    PlainNoSlash(month);
    PlainNoSlash(year);
    CardExpiry.ExplodeTwo(month, year);
    PlainChars(month);
    PlainChars(year);
    TrimKeeps(month);
    TrimKeeps(year);
  }

  lemma PlainNoSlash(s: string)
    requires PlainField(s)
    ensures '/' !in s
  {
    PlainChars(s);
  }

  /**
   * The store and the page script read such an expiry alike: for any
   * current year of this century the script's transformed month and year
   * are the month and year the store sends to the gateway.
   */
  lemma InputFilterAgreesWithPage(month: string, year: string, yearNow: nat)
    requires PlainField(month) && PlainField(year)
    requires 1 <= |month| <= 2 && month != "0" && |year| == 2
    requires 2000 <= yearNow <= 2099
    ensures CardExpiry.TransformCardExpiry(Some(month + "/" + year), yearNow) ==
      (InputFilter(month + "/" + year, Month), InputFilter(month + "/" + year, Year))
  {
    InputFilterOfMonthYear(month, year);
    assert CardExpiry.TransformCardExpiry(Some(month + "/" + year), yearNow) == (month, "20" + year) by {
      PlainNoSlash(month);
      PlainNoSlash(year);
      PlainChars(month);
      PlainChars(year);
      CardExpiry.TransformCardExpiryOfMonthYear(month, year, yearNow);
      CardExpiry.CenturyOfThisCentury(yearNow);
    }
  }

  /** A month of "0" is falsy to PHP: the month field is then the whole trimmed expiry "0/YY". */
  lemma MonthZeroIsNotAMonth(year: string)
    requires '/' !in year
    ensures InputFilter("0/" + year, Month) == Trim("0/" + year)
  {
    var e := "0/" + year;
    assert e[..1] == "0" && e[2..] == year;
    assert Empty(Trim(e[..1])) by {
      TrimKeeps("0");
    }
    FalsyMonth(e, 1);
  }

  /** A month part PHP takes for empty leaves the month field the whole trimmed expiry. */
  lemma FalsyMonth(input: string, i: nat)
    requires i < |input| && input[i] == '/' && '/' !in input[..i] && '/' !in input[i + 1..]
    requires Empty(Trim(input[..i]))
    ensures InputFilter(input, Month) == Trim(input)
  {
    assert input == input[..i] + "/" + input[i + 1..];
    CardExpiry.ExplodeTwo(input[..i], input[i + 1..]);
  }

  /** A year of four characters (an expiry typed as "MM/YYYY") is kept as typed. */
  lemma {:induction false} FourDigitYearIsKept(month: string, year: string)
    requires PlainField(month) && PlainField(year) && |year| == 4
    ensures InputFilter(month + "/" + year, Year) == year
  {
    MonthYearParts(month, year);
    WholeYearOfParts(month, year, month + "/" + year);
  }

  /** The year field of two parts whose year is trimmed and of three or four characters. */
  lemma WholeYearOfParts(month: string, year: string, input: string)
    requires Trim(year) == year && 2 < |year| <= 4
    ensures YearField([month, year], input) == year
  {
  }

  // ---------------------------------------------------------------------
  // the status of a payment sent from the order confirmation

  /** The order statuses the direct method is configured with. */
  datatype Statuses = Statuses(success: int, failure: int, async: int)

  /** What `processTransactionStatus` throws: the 3-D Secure v2 method is not supported here, or the payment failed. */
  datatype Thrown = ThreedsUnsupported | Declined(message: Value)

  /** The payment failed at the gateway. */
  predicate Failed(status: Value)
  {
    status == Str(Genesis.Declined) || status == Str(Genesis.Error)
  }

  /**
   * The history entry `processTransactionStatus` adds for the order in the
   * session: pending (asynchronous) and failed payments notify the
   * customer, an approved one does not; any other status adds nothing.
   */
  function StatusHistory(t: GatewayTransaction, orderId: Value, statuses: Statuses): (r: Option<History>)
    ensures r.Some? <==> t.status == Str(Genesis.PendingAsync) || t.status == Str(Genesis.Approved) || Failed(t.status)
    ensures r.Some? ==> r.value.orderId == IntOf(orderId) && (r.value.notify <==> t.status != Str(Genesis.Approved))
    ensures t.status == Str(Genesis.PendingAsync) ==>
      r == Some(History(IntOf(orderId), statuses.async, "text_payment_status_init_async", true))
    ensures t.status == Str(Genesis.Approved) ==> r.value.statusId == statuses.success
    ensures Failed(t.status) ==> r.value.statusId == statuses.failure && r.value.comment == "text_payment_status_unsuccessful"
  {
    if t.status == Str(Genesis.PendingAsync) then
      Some(History(IntOf(orderId), statuses.async, "text_payment_status_init_async", true))
    else if t.status == Str(Genesis.Approved) then
      Some(History(IntOf(orderId), statuses.success, "text_payment_status_successful", false))
    else if Failed(t.status) then
      Some(History(IntOf(orderId), statuses.failure, "text_payment_status_unsuccessful", true))
    else None
  }

  /**
   * What `processTransactionStatus` throws: a pending payment that asks for
   * the 3-D Secure v2 method, or a failed payment with its message.
   */
  function StatusThrown(t: GatewayTransaction): (r: Option<Thrown>)
    ensures r.Some? <==> Failed(t.status) || (t.status == Str(Genesis.PendingAsync) && t.threedsMethodContinueUrl != Null)
    ensures Failed(t.status) ==> r == Some(Declined(t.message))
  {
    if t.status == Str(Genesis.PendingAsync) && t.threedsMethodContinueUrl != Null then Some(ThreedsUnsupported)
    else if Failed(t.status) then Some(Declined(t.message))
    else None
  }

  /**
   * Where the browser goes when nothing is thrown: the gateway's URL for a
   * pending payment that gives one, the given default otherwise.
   */
  function StatusRedirect(t: GatewayTransaction, default: Target): (r: Target)
    ensures r != default ==> t.status == Str(Genesis.PendingAsync) && r == External(t.redirectUrl)
    ensures t.status == Str(Genesis.PendingAsync) && t.threedsMethodContinueUrl == Null && t.redirectUrl != Null ==>
      r == External(t.redirectUrl)
  {
    if t.status == Str(Genesis.PendingAsync) && t.threedsMethodContinueUrl == Null && t.redirectUrl != Null then
      External(t.redirectUrl)
    else default
  }

  /** The message of a thrown exception: the phrase's key, or the payment's message (`null` as ''). */
  function ThrownMessage(thrown: Thrown): string
  {
    match thrown
    case ThreedsUnsupported => "text_payment_3ds_v2_error"
    case Declined(message) => Text(message)
  }

  /** The error answered for a thrown exception: its message, or the generic error when that is empty. */
  function ThrownText(thrown: Thrown): (r: Said)
    ensures thrown.ThreedsUnsupported? ==> r == Lang("text_payment_3ds_v2_error")
    ensures thrown.Declined? ==> r == ErrorText(Text(thrown.message))
  {
    match thrown
    case ThreedsUnsupported => Lang("text_payment_3ds_v2_error")
    case Declined(message) => ErrorText(Text(message))
  }

  /**
   * The exception logged for it: a plain `Exception` with that message,
   * raised where `at` says (file, line, trace), with no cause.
   */
  function ThrownException(thrown: Thrown, at: Exception): (r: Exception)
    ensures r.cls == "Exception" && r.message == ThrownMessage(thrown) && r.previous.None?
  {
    Exception("Exception", ThrownMessage(thrown), at.file, at.line, at.trace, None)
  }

  // ---------------------------------------------------------------------
  // the order confirmation

  /** The confirmation files the payment: an order in the session and a sent payment with an id. */
  predicate PaymentSent(sessionOrderId: Option<Value>, created: Created)
  {
    sessionOrderId.Some? && created.CreateAnswered? && created.t.uniqueId != Null
  }

  /** The default target of a confirmed order: the shop's success page. */
  function SuccessPage(language: string): Target
  {
    Route(BuildUrl("checkout/success", "", language))
  }

  /**
   * The JSON `send` answers with: only a filed payment that neither failed
   * nor asks for the 3-D Secure v2 method sends the browser on, to the
   * gateway's page for a pending payment that gives one and to the
   * success page otherwise; a failed payment is answered with its message.
   */
  function SendAnswer(sessionOrderId: Option<Value>, created: Created, language: string): (r: Output)
    ensures r.JsonRedirect? <==> PaymentSent(sessionOrderId, created) && StatusThrown(created.t).None?
    ensures r.JsonRedirect? ==> r.redirect == StatusRedirect(created.t, SuccessPage(language))
    ensures sessionOrderId.None? ==> r == JsonError(Gateway("Incorrect call!"))
    ensures sessionOrderId.Some? && created.CreateSwallowed? ==> r == JsonError(Lang("text_payment_system_error"))
    ensures PaymentSent(sessionOrderId, created) && Failed(created.t.status) ==>
      r == JsonError(ErrorText(Text(created.t.message)))
  {
    if sessionOrderId.None? then JsonError(Gateway("Incorrect call!"))
    else match created
      case CreateThrew(e) => JsonError(ErrorText(e.message))
      case CreateSwallowed(_) => JsonError(Lang("text_payment_system_error"))
      case CreateAnswered(t) =>
        if t.uniqueId == Null then JsonError(Lang("text_payment_system_error"))
        else match StatusThrown(t)
          case Some(thrown) => JsonError(ThrownText(thrown))
          case None => JsonRedirect(StatusRedirect(t, SuccessPage(language)))
  }

  /** The answer to a filed payment: its thrown error, or the browser sent on. */
  lemma FiledAnswer(sessionOrderId: Value, t: GatewayTransaction, language: string)
    requires t.uniqueId != Null
    ensures StatusThrown(t).Some? ==> SendAnswer(Some(sessionOrderId), CreateAnswered(t), language) == JsonError(ThrownText(StatusThrown(t).value))
    ensures StatusThrown(t).None? ==> SendAnswer(Some(sessionOrderId), CreateAnswered(t), language) == JsonRedirect(StatusRedirect(t, SuccessPage(language)))
  {
  }

  /**
   * The recurring calls of a filed payment that threw nothing: the order's
   * recurring products registered with the payment's id, then the data
   * filed and the recurring order updated with no reference.
   */
  function SendCalls(uniqueId: Value, data: Data, recurring: bool, recurringProducts: bool): seq<RecurringCall>
  {
    if !recurring then []
    else (if recurringProducts then [AddOrderRecurring(uniqueId)] else []) + [PopulateRecurring(data), UpdateRecurring(data, Null)]
  }

  /** The ledger after a filed payment: the write, then the thrown exception logged. */
  function SendLedger(db: DbHelper, l: Ledger, t: GatewayTransaction, order: OrderInfo, failure: Option<Exception>, at: Exception): (r: Ledger)
    ensures r.rows == Write(db, l, PopulateDataUniqIdTrx(t, order), failure).rows
    ensures r.ids == Write(db, l, PopulateDataUniqIdTrx(t, order), failure).ids
  {
    var written := Write(db, l, PopulateDataUniqIdTrx(t, order), failure);
    match StatusThrown(t)
    case Some(thrown) => written.(log := written.log + db.LogLines(ThrownException(thrown, at)))
    case None => written
  }

  /** `SendLedger` as the write followed by the log lines of what was thrown. */
  lemma SendLedgerLog(db: DbHelper, l: Ledger, t: GatewayTransaction, order: OrderInfo, failure: Option<Exception>, at: Exception)
    ensures var written := Write(db, l, PopulateDataUniqIdTrx(t, order), failure);
      SendLedger(db, l, t, order, failure, at) == written.(log := written.log +
        if StatusThrown(t).Some? then db.LogLines(ThrownException(StatusThrown(t).value, at)) else [])
  {
  }

  /**
   * A failed payment is still filed before its exception is thrown: the
   * row holds its id and its failed status (and `StatusHistory` moves the
   * order to the failure status, `SendAnswer` answers with its message).
   */
  lemma FailedPaymentIsFiled(db: DbHelper, l: Ledger, order: OrderInfo, t: GatewayTransaction, at: Exception)
    requires Failed(t.status) && t.uniqueId != Null
    requires db.WriteError(PopulateDataUniqIdTrx(t, order), None).None?
    ensures Text(t.uniqueId) in SendLedger(db, l, t, order, None, at).rows
    ensures var row := SendLedger(db, l, t, order, None, at).rows[Text(t.uniqueId)];
      Get(row, UniqueId) == t.uniqueId && Get(row, Status) == t.status
  {
    var d := PopulateDataUniqIdTrx(t, order);
    assert d[4] == (Status, t.status);
    LookupAt(d, 2);
    Filed(l.rows, d, 2);
    Filed(l.rows, d, 4);
  }

  // ---------------------------------------------------------------------
  // the notification

  /** The direct model's `getTransactionById` on the rows: the row under that id, the empty id included. */
  function Stored(rows: map<string, Row>, id: Value): (r: Option<Row>)
    ensures r.Some? <==> Text(id) in rows
    ensures r.Some? ==> r.value == rows[Text(id)]
  {
    if Text(id) in rows then Some(rows[Text(id)]) else None
  }

  /**
   * The data a notification files: the row's order, the reconciled id,
   * type, mode, status, currency, amount and time, its messages ('' when
   * unset); never a parent or a terminal token.
   */
  function NotificationData(orderId: Value, rec: GatewayTransaction): (d: Data)
    ensures DistinctKeys(d) && |d| == 10
    ensures d[0] == (OrderId, orderId) && d[1] == (UniqueId, rec.uniqueId) && d[4] == (Status, rec.status)
    ensures forall i | 0 <= i < |d| :: d[i].0 != ReferenceId && d[i].0 != TerminalToken
  {
    [(OrderId, orderId), (UniqueId, rec.uniqueId), (Type, rec.transactionType), (Mode, rec.mode), (Status, rec.status),
     (Currency, rec.currency), (Amount, rec.amount), (Timestamp, rec.timestamp),
     (Message, Coalesce(rec.message, Str(""))), (TechnicalMessage, Coalesce(rec.technicalMessage, Str("")))]
  }

  /**
   * The history entry of a notification: the success status for an
   * approved payment, the failure status for a declined or failed one,
   * the customer not notified; nothing for any other status.
   */
  function NotificationHistory(status: Value, orderId: Value, statuses: Statuses): (r: Option<History>)
    ensures r.Some? <==> status == Str(Genesis.Approved) || Failed(status)
    ensures r.Some? ==> r.value.orderId == IntOf(orderId) && !r.value.notify
    ensures status == Str(Genesis.Approved) ==>
      r.value.statusId == statuses.success && r.value.comment == "text_payment_status_successful"
    ensures Failed(status) ==>
      r.value.statusId == statuses.failure && r.value.comment == "text_payment_status_unsuccessful"
  {
    if status == Str(Genesis.Approved) then
      Some(History(IntOf(orderId), statuses.success, "text_payment_status_successful", false))
    else if Failed(status) then
      Some(History(IntOf(orderId), statuses.failure, "text_payment_status_unsuccessful", false))
    else None
  }

  /** The recurring calls of a notification: the data filed and the recurring order updated, with no reference. */
  function NotificationCalls(data: Data, recurring: bool): seq<RecurringCall>
  {
    if recurring then [PopulateRecurring(data), UpdateRecurring(data, Null)] else []
  }

  /** What an authentic notification leaves behind, and whether it is acknowledged. */
  datatype Outcome = Outcome(ledger: Ledger, history: Option<History>, calls: seq<RecurringCall>, acknowledged: bool)

  /** The ledger row of a reconciled transaction, when it has an id. */
  function Reconciled(l: Ledger, rec: GatewayTransaction): Option<Row>
  {
    if rec.uniqueId != Null then Stored(l.rows, rec.uniqueId) else None
  }

  /**
   * The authentic path of `callback`: a reconciled transaction the ledger
   * holds for an order has the notification's data filed under its own
   * id, the order's history added and the recurring calls made, and is
   * acknowledged; any other is ignored and not acknowledged.
   */
  function Notified(db: DbHelper, l: Ledger, rec: GatewayTransaction, statuses: Statuses, recurring: bool,
                    failure: Option<Exception>): (o: Outcome)
    ensures o.acknowledged <==> Linked(Reconciled(l, rec))
    ensures !o.acknowledged ==> o == Outcome(l, None, [], false)
  {
    var row := Reconciled(l, rec);
    if !Linked(row) then Outcome(l, None, [], false)
    else
      var orderId := row.value[OrderId];
      var data := NotificationData(orderId, rec);
      Outcome(Write(db, l, data, failure), NotificationHistory(rec.status, orderId, statuses),
              NotificationCalls(data, recurring), true)
  }

  /**
   * A notification never re-parents a row and never changes its terminal
   * token: the row it files keeps both as they were.
   */
  lemma NotificationKeepsParent(db: DbHelper, l: Ledger, rec: GatewayTransaction, statuses: Statuses, recurring: bool,
                                failure: Option<Exception>, c: Column)
    requires c == ReferenceId || c == TerminalToken
    requires Linked(Reconciled(l, rec))
    ensures var before := l.rows[Text(rec.uniqueId)];
      var after := Notified(db, l, rec, statuses, recurring, failure).ledger.rows[Text(rec.uniqueId)];
      (c in after <==> c in before) && (c in after ==> after[c] == before[c])
  {
    var data := NotificationData(l.rows[Text(rec.uniqueId)][OrderId], rec);
    LookupAt(data, 1);
    assert c !in KeysOf(data);
    WriteKeepsUnnamed(db, l, data, failure, c);
  }

  /**
   * A notification the database takes leaves the row holding the
   * reconciled status under the reconciled id, in the same order.
   */
  lemma NotificationFilesStatus(db: DbHelper, l: Ledger, rec: GatewayTransaction, statuses: Statuses, recurring: bool)
    requires Linked(Reconciled(l, rec))
    requires db.WriteError(NotificationData(l.rows[Text(rec.uniqueId)][OrderId], rec), None).None?
    ensures var after := Notified(db, l, rec, statuses, recurring, None).ledger.rows[Text(rec.uniqueId)];
      Get(after, Status) == StoredValue(rec.status) && Get(after, OrderId) == l.rows[Text(rec.uniqueId)][OrderId]
  {
    var data := NotificationData(l.rows[Text(rec.uniqueId)][OrderId], rec);
    LookupAt(data, 1);
    Filed(l.rows, data, 0);
    Filed(l.rows, data, 4);
  }

  /**
   * On a table with every column, the same notification delivered twice
   * leaves the ledger as the first delivery did, and adds the same history
   * entry and recurring calls again.
   */
  lemma ReplayKeepsLedger(db: DbHelper, l: Ledger, rec: GatewayTransaction, statuses: Statuses, recurring: bool)
    requires forall c: Column :: c in db.columns
    ensures var first := Notified(db, l, rec, statuses, recurring, None);
      Notified(db, first.ledger, rec, statuses, recurring, None) == first
  {
    var first := Notified(db, l, rec, statuses, recurring, None);
    if first.acknowledged {
      var orderId := l.rows[Text(rec.uniqueId)][OrderId];
      var data := NotificationData(orderId, rec);
      LookupAt(data, 1);
      Filed(l.rows, data, 0);
      assert Reconciled(first.ledger, rec).value[OrderId] == orderId;
      WriteAgain(db, l, first.ledger, data);
    }
  }

  // ---------------------------------------------------------------------
  // the controller

  class Direct {
    const db: DbHelper
    const shop: Shop
    const response: Response
    const statuses: Statuses
    /** The calls into the recurring bookkeeping, oldest first. */
    var recurringCalls: seq<RecurringCall>

    constructor(db: DbHelper, shop: Shop, response: Response, statuses: Statuses)
      ensures this.db == db && this.shop == shop && this.response == response && this.statuses == statuses
      ensures recurringCalls == []
    {
      this.db := db;
      this.shop := shop;
      this.response := response;
      this.statuses := statuses;
      recurringCalls := [];
    }

    /**
     * `processTransactionStatus`: adds the status's history entry for the
     * order in the session and gives the redirect target (the default
     * unless the gateway sends the browser on) and what it throws.
     */
    method ProcessTransactionStatus(t: GatewayTransaction, sessionOrderId: Value, default: Target)
      returns (redirect: Target, thrown: Option<Thrown>)
      modifies shop`orderStatus, shop`history
      ensures var entry := StatusHistory(t, sessionOrderId, statuses);
        shop.history == old(shop.history) + (if entry.Some? then [entry.value] else []) &&
        shop.orderStatus == Applied(old(shop.orderStatus), entry)
      ensures thrown == StatusThrown(t)
      ensures thrown.None? ==> redirect == StatusRedirect(t, default)
    {
      redirect := default;
      thrown := None;
      if t.status == Str(Genesis.PendingAsync) {
        shop.Record(IntOf(sessionOrderId), statuses.async, "text_payment_status_init_async", true);
        if t.threedsMethodContinueUrl != Null {
          thrown := Some(ThreedsUnsupported);
          return;
        }
        if t.redirectUrl != Null {
          redirect := External(t.redirectUrl);
        }
      } else if t.status == Str(Genesis.Approved) {
        shop.Record(IntOf(sessionOrderId), statuses.success, "text_payment_status_successful", false);
      } else if t.status == Str(Genesis.Declined) || t.status == Str(Genesis.Error) {
        shop.Record(IntOf(sessionOrderId), statuses.failure, "text_payment_status_unsuccessful", true);
        thrown := Some(Declined(t.message));
      }
    }

    /** The filing part of a sent payment with an id: the ledger write, then the status. */
    method FilePayment(t: GatewayTransaction, order: OrderInfo, sessionOrderId: Value, language: string,
                       failure: Option<Exception>) returns (data: Data, redirect: Target, thrown: Option<Thrown>)
      requires db.Valid()
      modifies db`ids, db`rows, db`log, shop`orderStatus, shop`history
      ensures db.Valid()
      ensures data == PopulateDataUniqIdTrx(t, order)
      ensures db.State() == Write(db, old(db.State()), data, failure)
      ensures var entry := StatusHistory(t, sessionOrderId, statuses);
        shop.history == old(shop.history) + (if entry.Some? then [entry.value] else []) &&
        shop.orderStatus == Applied(old(shop.orderStatus), entry)
      ensures thrown == StatusThrown(t)
      ensures thrown.None? ==> redirect == StatusRedirect(t, SuccessPage(language))
    {
      data := PopulateDataUniqIdTrx(t, order);
      db.PopulateTransaction(data, failure);
      redirect, thrown := ProcessTransactionStatus(t, sessionOrderId, SuccessPage(language));
    }

    /** The recurring part of a filed payment that threw nothing. */
    method AddSendCalls(uniqueId: Value, data: Data, recurring: bool, recurringProducts: bool)
      modifies this`recurringCalls
      ensures recurringCalls == old(recurringCalls) + SendCalls(uniqueId, data, recurring, recurringProducts)
    {
      if recurring {
        if recurringProducts {
          recurringCalls := recurringCalls + [AddOrderRecurring(uniqueId)];
        }
        recurringCalls := recurringCalls + [PopulateRecurring(data), UpdateRecurring(data, Null)];
      }
    }

    /**
     * The branch of `send` for a sent payment with an id: it is filed and
     * its status acted on; a thrown exception is answered and logged and
     * skips the recurring calls, otherwise the browser is sent on.
     */
    method SendFiled(t: GatewayTransaction, order: OrderInfo, sessionOrderId: Value, language: string,
                     recurring: bool, recurringProducts: bool, failure: Option<Exception>, at: Exception)
      requires db.Valid() && t.uniqueId != Null
      modifies db`ids, db`rows, db`log, shop`orderStatus, shop`history, response, this`recurringCalls
      ensures db.Valid()
      ensures db.State() == SendLedger(db, old(db.State()), t, order, failure, at)
      ensures var entry := StatusHistory(t, sessionOrderId, statuses);
        shop.history == old(shop.history) + (if entry.Some? then [entry.value] else []) &&
        shop.orderStatus == Applied(old(shop.orderStatus), entry)
      ensures recurringCalls == old(recurringCalls) +
        (if StatusThrown(t).None? then SendCalls(t.uniqueId, PopulateDataUniqIdTrx(t, order), recurring, recurringProducts) else [])
      ensures response.headers == old(response.headers) + [ContentTypeJson]
      ensures response.output == Some(SendAnswer(Some(sessionOrderId), CreateAnswered(t), language))
    {
      var data, redirect, thrown := FilePayment(t, order, sessionOrderId, language, failure);
      FiledAnswer(sessionOrderId, t, language);
      SendLedgerLog(db, old(db.State()), t, order, failure, at);
      Conclude(t.uniqueId, data, redirect, thrown, recurring, recurringProducts, at);
    }

    /** What `send` does after the status is acted on: the thrown exception refused, or the payment proceeded with. */
    method Conclude(uniqueId: Value, data: Data, redirect: Target, thrown: Option<Thrown>,
                    recurring: bool, recurringProducts: bool, at: Exception)
      modifies db`log, response, this`recurringCalls
      ensures db.State() == old(db.State()).(log := old(db.log) +
        if thrown.Some? then db.LogLines(ThrownException(thrown.value, at)) else [])
      ensures recurringCalls == old(recurringCalls) +
        (if thrown.None? then SendCalls(uniqueId, data, recurring, recurringProducts) else [])
      ensures response.headers == old(response.headers) + [ContentTypeJson]
      ensures response.output == Some(if thrown.Some? then JsonError(ThrownText(thrown.value)) else JsonRedirect(redirect))
    {
      if thrown.Some? {
        Refuse(thrown.value, at);
      } else {
        Proceed(uniqueId, data, redirect, recurring, recurringProducts);
      }
    }

    /** The rest of `send` when nothing was thrown: the recurring calls, then the browser sent on. */
    method Proceed(uniqueId: Value, data: Data, redirect: Target, recurring: bool, recurringProducts: bool)
      modifies response, this`recurringCalls
      ensures recurringCalls == old(recurringCalls) + SendCalls(uniqueId, data, recurring, recurringProducts)
      ensures response.headers == old(response.headers) + [ContentTypeJson]
      ensures response.output == Some(JsonRedirect(redirect))
    {
      AddSendCalls(uniqueId, data, recurring, recurringProducts);
      response.Send(ContentTypeJson, JsonRedirect(redirect));
    }

    /** The `catch` of `send` for what `processTransactionStatus` threw: the error answered, the exception logged. */
    method Refuse(thrown: Thrown, at: Exception)
      modifies db`log, response
      ensures db.State() == old(db.State()).(log := old(db.log) + db.LogLines(ThrownException(thrown, at)))
      ensures response.headers == old(response.headers) + [ContentTypeJson]
      ensures response.output == Some(JsonError(ThrownText(thrown)))
    {
      RespondWithError(response, ThrownText(thrown));
      db.LogEx(ThrownException(thrown, at));
    }

    /**
     * `send`: without an order in the session only "Incorrect call!" is
     * answered; an exception from building or sending the payment is
     * answered with its message (or the generic error) and logged, nothing
     * filed; one the model catches is logged there and answered with the
     * generic error; a sent payment with an id is handled by `SendFiled`; one
     * without an id is answered with the generic error, nothing filed.
     * `at` is where `processTransactionStatus` throws.
     */
    method Send(sessionOrderId: Option<Value>, order: OrderInfo, created: Created, language: string,
                recurring: bool, recurringProducts: bool, failure: Option<Exception>, at: Exception)
      requires db.Valid()
      modifies db`ids, db`rows, db`log, shop`orderStatus, shop`history, response, this`recurringCalls
      ensures db.Valid()
      ensures response.headers == old(response.headers) + [ContentTypeJson]
      ensures response.output == Some(SendAnswer(sessionOrderId, created, language))
      ensures !PaymentSent(sessionOrderId, created) ==>
        db.rows == old(db.rows) && db.ids == old(db.ids) && shop.history == old(shop.history) &&
        shop.orderStatus == old(shop.orderStatus) && recurringCalls == old(recurringCalls)
      ensures !PaymentSent(sessionOrderId, created) ==>
        db.log == old(db.log) + (if sessionOrderId.Some? && !created.CreateAnswered? then db.LogLines(created.e) else [])
      ensures PaymentSent(sessionOrderId, created) ==>
        var entry := StatusHistory(created.t, sessionOrderId.value, statuses);
        db.State() == SendLedger(db, old(db.State()), created.t, order, failure, at) &&
        shop.history == old(shop.history) + (if entry.Some? then [entry.value] else []) &&
        shop.orderStatus == Applied(old(shop.orderStatus), entry) &&
        recurringCalls == old(recurringCalls) +
          (if StatusThrown(created.t).None? then
             SendCalls(created.t.uniqueId, PopulateDataUniqIdTrx(created.t, order), recurring, recurringProducts)
           else [])
    {
      if sessionOrderId.None? {
        RespondWithError(response, Gateway("Incorrect call!"));
        return;
      }
      match created
      case CreateThrew(e) =>
        RespondWithError(response, ErrorText(e.message));
        db.LogEx(e);
      case CreateSwallowed(e) =>
        db.LogEx(e);
        response.Send(ContentTypeJson, JsonError(Lang("text_payment_system_error")));
      case CreateAnswered(t) =>
        if t.uniqueId != Null {
          SendFiled(t, order, sessionOrderId.value, language, recurring, recurringProducts, failure, at);
        } else {
          response.Send(ContentTypeJson, JsonError(Lang("text_payment_system_error")));
        }
    }

    /**
     * `callback`: a notification that is not authentic changes nothing and
     * answers nothing; one that throws on the way is only logged; an
     * authentic one is `Notified`, and answered in XML with the reconciled
     * id only when it was acknowledged.
     */
    method Callback(notification: Notification<GatewayTransaction>, recurring: bool, failure: Option<Exception>)
      requires db.Valid()
      modifies db`ids, db`rows, db`log, shop`orderStatus, shop`history, response, this`recurringCalls
      ensures db.Valid()
      ensures !notification.Authentic? ==>
        db.rows == old(db.rows) && db.ids == old(db.ids) && shop.history == old(shop.history) &&
        shop.orderStatus == old(shop.orderStatus) && recurringCalls == old(recurringCalls) &&
        response.headers == old(response.headers) && response.output == old(response.output)
      ensures notification.NotAuthentic? ==> db.log == old(db.log)
      ensures notification.Threw? ==> db.log == old(db.log) + db.LogLines(notification.e)
      ensures notification.Authentic? ==>
        var o := Notified(db, old(db.State()), notification.reconcile, statuses, recurring, failure);
        db.State() == o.ledger &&
        shop.history == old(shop.history) + (if o.history.Some? then [o.history.value] else []) &&
        shop.orderStatus == Applied(old(shop.orderStatus), o.history) &&
        recurringCalls == old(recurringCalls) + o.calls &&
        (o.acknowledged ==>
          response.headers == old(response.headers) + [ContentTypeXml] &&
          response.output == Some(Acknowledgement(notification.reconcile.uniqueId))) &&
        (!o.acknowledged ==> response.headers == old(response.headers) && response.output == old(response.output))
    {
      match notification
      case NotAuthentic =>
      case Threw(e) =>
        db.LogEx(e);
      case Authentic(rec) =>
        Reconcile(rec, recurring, failure);
    }

    /** The authentic path of `callback`. */
    method Reconcile(rec: GatewayTransaction, recurring: bool, failure: Option<Exception>)
      requires db.Valid()
      modifies db`ids, db`rows, db`log, shop`orderStatus, shop`history, response, this`recurringCalls
      ensures db.Valid()
      ensures var o := Notified(db, old(db.State()), rec, statuses, recurring, failure);
        db.State() == o.ledger &&
        shop.history == old(shop.history) + (if o.history.Some? then [o.history.value] else []) &&
        shop.orderStatus == Applied(old(shop.orderStatus), o.history) &&
        recurringCalls == old(recurringCalls) + o.calls &&
        (o.acknowledged ==>
          response.headers == old(response.headers) + [ContentTypeXml] &&
          response.output == Some(Acknowledgement(rec.uniqueId))) &&
        (!o.acknowledged ==> response.headers == old(response.headers) && response.output == old(response.output))
    {
      if rec.uniqueId != Null {
        var transaction := DirectModel.GetTransactionById(db, rec.uniqueId);
        assert transaction == Reconciled(db.State(), rec);
        if Linked(transaction) {
          FileNotification(rec, transaction.value[OrderId], recurring, failure);
          response.Send(ContentTypeXml, Acknowledgement(rec.uniqueId));
        }
      }
    }

    /** Files a notification for the order `orderId`: the ledger write, the history, the recurring calls. */
    method FileNotification(rec: GatewayTransaction, orderId: Value, recurring: bool, failure: Option<Exception>)
      requires db.Valid()
      modifies db`ids, db`rows, db`log, shop`orderStatus, shop`history, this`recurringCalls
      ensures db.Valid()
      ensures db.State() == Write(db, old(db.State()), NotificationData(orderId, rec), failure)
      ensures var entry := NotificationHistory(rec.status, orderId, statuses);
        shop.history == old(shop.history) + (if entry.Some? then [entry.value] else []) &&
        shop.orderStatus == Applied(old(shop.orderStatus), entry)
      ensures recurringCalls == old(recurringCalls) + NotificationCalls(NotificationData(orderId, rec), recurring)
    {
      var data := NotificationData(orderId, rec);
      db.PopulateTransaction(data, failure);
      AddHistory(NotificationHistory(rec.status, orderId, statuses));
      if recurring {
        recurringCalls := recurringCalls + [PopulateRecurring(data), UpdateRecurring(data, Null)];
      }
    }

    /** `addHistory` for an entry, when there is one. */
    method AddHistory(entry: Option<History>)
      modifies shop`orderStatus, shop`history
      ensures shop.history == old(shop.history) + (if entry.Some? then [entry.value] else [])
      ensures shop.orderStatus == Applied(old(shop.orderStatus), entry)
    {
      if entry.Some? {
        shop.Record(entry.value.orderId, entry.value.statusId, entry.value.comment, entry.value.notify);
      }
    }
  }
}
