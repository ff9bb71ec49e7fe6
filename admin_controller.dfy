/**
 * The admin `BaseController` shared by both payment methods: which
 * reference actions a stored transaction offers (capture, refund, void),
 * the amounts the action dialog offers, and the capture, refund and void
 * requests themselves, which call the gateway and file the gateway's
 * answer as a child row of the transaction in the ledger.
 *
 * The gateway is not modelled: its answer to a request is a parameter
 * (`Reply`), and the requests sent to it are recorded in `calls`.
 */
module AdminController {
  import opened Php
  import opened Rows
  import opened DbHelper
  import opened AdminModel
  import opened OpenCart
  import Genesis
  import EmerchantpayHelper
  import TransactionTree

  /** `OC_REC_TXN_CANCELLED`: the recurring transaction type of a cancellation. */
  const RecurringTxnCancelled := 5
  /** `OC_ORD_STATUS_REFUNDED`: OpenCart's "Refunded" order status. */
  const OrderStatusRefunded := 11
  /** The `order_recurring.status` of a cancelled recurring order. */
  const RecurringStatusCancelled := 3

  // ---------------------------------------------------------------------
  // which actions a transaction offers

  /** The wallet types whose capture and refund depend on the configured subtypes. */
  const CustomAttributeTypes := [Genesis.GooglePay, Genesis.PayPal, Genesis.ApplePay]

  /** `isTransactionWithCustomAttribute`. */
  predicate IsTransactionWithCustomAttribute(t: string)
  {
    t in CustomAttributeTypes
  }

  datatype ReferenceAction = CaptureReference | RefundReference

  /**
   * The configured wallet subtypes that allow an action on a wallet
   * transaction: capture needs the `authorize` subtype; refund needs `sale`,
   * or for PayPal `sale` or `express`.
   */
  function AllowingSubtypes(t: string, action: ReferenceAction): seq<string>
  {
    match action
    case CaptureReference => [Genesis.SubtypeAuthorize]
    case RefundReference => if t == Genesis.PayPal then [Genesis.SubtypeSale, Genesis.SubtypeExpress] else [Genesis.SubtypeSale]
  }

  /** How a wallet subtype is named among the selected transaction types: `<type>_<subtype>`. */
  function Selection(t: string, subtype: string): string
  {
    t + "_" + subtype
  }

  /**
   * `checkReferenceActionByCustomAttr`: whether the configured transaction
   * types (`None` when the setting is not an array) allow `action` on a
   * wallet transaction of type `t`. Any other type is refused.
   */
  function CheckReferenceActionByCustomAttr(action: ReferenceAction, t: string, selected: Option<seq<string>>): (r: bool)
    ensures r <==> (selected.Some? && IsTransactionWithCustomAttribute(t) &&
                    exists s | s in AllowingSubtypes(t, action) :: Selection(t, s) in selected.value)
  {
    match selected
    case None => false
    case Some(types) =>
      if t == Genesis.GooglePay then
        if action == CaptureReference then
          assert Selection(t, Genesis.SubtypeAuthorize) == EmerchantpayHelper.GooglePayTransactionPrefix + Genesis.SubtypeAuthorize;
          EmerchantpayHelper.GooglePayTransactionPrefix + Genesis.SubtypeAuthorize in types
        else
          assert Selection(t, Genesis.SubtypeSale) == EmerchantpayHelper.GooglePayTransactionPrefix + Genesis.SubtypeSale;
          EmerchantpayHelper.GooglePayTransactionPrefix + Genesis.SubtypeSale in types
      else if t == Genesis.PayPal then
        if action == CaptureReference then
          assert Selection(t, Genesis.SubtypeAuthorize) == EmerchantpayHelper.PayPalTransactionPrefix + Genesis.SubtypeAuthorize;
          EmerchantpayHelper.PayPalTransactionPrefix + Genesis.SubtypeAuthorize in types
        else
          var refundable := [EmerchantpayHelper.PayPalTransactionPrefix + Genesis.SubtypeSale,
                             EmerchantpayHelper.PayPalTransactionPrefix + Genesis.SubtypeExpress];
          var common := Intersect(refundable, types);
          assert refundable == [Selection(t, Genesis.SubtypeSale), Selection(t, Genesis.SubtypeExpress)];
          assert |common| > 0 <==> common != [] && common[0] in common;
          |common| > 0
      else if t == Genesis.ApplePay then
        if action == CaptureReference then
          assert Selection(t, Genesis.SubtypeAuthorize) == EmerchantpayHelper.ApplePayTransactionPrefix + Genesis.SubtypeAuthorize;
          EmerchantpayHelper.ApplePayTransactionPrefix + Genesis.SubtypeAuthorize in types
        else
          assert Selection(t, Genesis.SubtypeSale) == EmerchantpayHelper.ApplePayTransactionPrefix + Genesis.SubtypeSale;
          EmerchantpayHelper.ApplePayTransactionPrefix + Genesis.SubtypeSale in types
      else
        false
  }

  /** `hasApprovedState`: an empty status is refused before the state is consulted. */
  function HasApprovedState(status: Value): (r: bool)
    ensures r <==> Text(status) == Genesis.Approved
  {
    assert Text(Int(0)) == "0";
    if !Truthy(status) then false else Text(status) == Genesis.Approved
  }

  /** The stored row's `type`. */
  function TypeOf(row: Row): string
  {
    Text(Get(row, Type))
  }

  /**
   * `canCaptureTransaction`: only an approved transaction; a wallet
   * transaction when its `authorize` subtype is configured, any other when
   * the gateway can capture its type.
   */
  function CanCaptureTransaction(row: Row, sdk: Genesis.Sdk, selected: Option<seq<string>>): (r: bool)
    ensures r ==> HasApprovedState(Get(row, Status))
    ensures IsTransactionWithCustomAttribute(TypeOf(row)) ==>
      (r <==> HasApprovedState(Get(row, Status)) && selected.Some? &&
              Selection(TypeOf(row), Genesis.SubtypeAuthorize) in selected.value)
    ensures !IsTransactionWithCustomAttribute(TypeOf(row)) ==>
      (r <==> HasApprovedState(Get(row, Status)) && TypeOf(row) in sdk.capturable)
  {
    if !HasApprovedState(Get(row, Status)) then false
    else if IsTransactionWithCustomAttribute(TypeOf(row)) then
      CheckReferenceActionByCustomAttr(CaptureReference, TypeOf(row), selected)
    else
      TypeOf(row) in sdk.capturable
  }

  /**
   * `canRefundTransaction`: only an approved transaction; a Google Pay or
   * Apple Pay transaction when its `sale` subtype is configured, a PayPal
   * one when `sale` or `express` is, any other when the gateway can refund
   * its type.
   */
  function CanRefundTransaction(row: Row, sdk: Genesis.Sdk, selected: Option<seq<string>>): (r: bool)
    ensures r ==> HasApprovedState(Get(row, Status))
    ensures TypeOf(row) == Genesis.PayPal ==>
      (r <==> HasApprovedState(Get(row, Status)) && selected.Some? &&
              (Selection(Genesis.PayPal, Genesis.SubtypeSale) in selected.value ||
               Selection(Genesis.PayPal, Genesis.SubtypeExpress) in selected.value))
    ensures TypeOf(row) in {Genesis.GooglePay, Genesis.ApplePay} ==>
      (r <==> HasApprovedState(Get(row, Status)) && selected.Some? &&
              Selection(TypeOf(row), Genesis.SubtypeSale) in selected.value)
    ensures !IsTransactionWithCustomAttribute(TypeOf(row)) ==>
      (r <==> HasApprovedState(Get(row, Status)) && TypeOf(row) in sdk.refundable)
  {
    if !HasApprovedState(Get(row, Status)) then false
    else if IsTransactionWithCustomAttribute(TypeOf(row)) then
      CheckReferenceActionByCustomAttr(RefundReference, TypeOf(row), selected)
    else
      TypeOf(row) in sdk.refundable
  }

  /** `canVoidTransaction`: the gateway can void the type and the transaction is approved. */
  function CanVoidTransaction(row: Row, sdk: Genesis.Sdk): (r: bool)
    ensures r <==> TypeOf(row) in sdk.voidable && Text(Get(row, Status)) == Genesis.Approved
  {
    TypeOf(row) in sdk.voidable && HasApprovedState(Get(row, Status))
  }

  /**
   * For the wallet types, capture and refund depend on the configured
   * subtypes alone: the gateway's own capture and refund lists play no
   * part, and with no subtype array configured nothing is offered.
   */
  lemma WalletEligibilityIgnoresSdk(row: Row, sdk1: Genesis.Sdk, sdk2: Genesis.Sdk, selected: Option<seq<string>>)
    requires IsTransactionWithCustomAttribute(TypeOf(row))
    ensures CanCaptureTransaction(row, sdk1, selected) == CanCaptureTransaction(row, sdk2, selected)
    ensures CanRefundTransaction(row, sdk1, selected) == CanRefundTransaction(row, sdk2, selected)
    ensures selected.None? ==> !CanCaptureTransaction(row, sdk1, selected) && !CanRefundTransaction(row, sdk1, selected)
  {
  }

  /** `isInitialRecurringTransaction`. */
  function IsInitialRecurringTransaction(t: string): (r: bool)
    ensures r <==> t == Genesis.InitRecurringSale || t == Genesis.InitRecurringSale3d
  {
    t in EmerchantpayHelper.RecurringTransactionTypes
  }

  // ---------------------------------------------------------------------
  // ledger sums

  /** What `getTransactionsSumAmount` returns: the amounts of the matching rows, 0 when none match. */
  function LedgerSum(model: AdminModel, orderId: Value, reference: Value, types: seq<string>, status: string): int
    reads model.db
    requires model.db.Valid()
  {
    match model.GetTransactionsByTypeAndStatus(orderId, reference, types, status)
    case None => 0
    case Some(rows) => AmountSum(rows)
  }

  /** `isVoidTransactionExist`: an approved void references the transaction within the order. */
  function IsVoidTransactionExist(model: AdminModel, orderId: Value, row: Row): (r: bool)
    reads model.db
    requires model.db.Valid()
    ensures r <==> exists x | x in model.Table() ::
      Matches(x, Abs(IntOf(orderId)), Get(row, UniqueId), [Genesis.Void], Genesis.Approved)
  {
    model.GetTransactionsByTypeAndStatus(orderId, Get(row, UniqueId), [Genesis.Void], Genesis.Approved).Some?
  }

  /** Rows with distinct `unique_id`s are what the listing's tree building needs. */
  lemma UniqueRowUids(rows: seq<Row>)
    requires UniqueIds(rows)
    ensures TransactionTree.DistinctRowUids(rows)
  {
  }

  /** A row of the admin transaction list: the entry and the actions offered on it. */
  datatype Listed = Listed(entry: TransactionTree.Entry, canCapture: bool, canRefund: bool, canVoid: bool, voidExists: bool)

  /** The types whose approved amounts can be captured: the authorizations. */
  const AuthorizeClassTypes := [Genesis.Authorize, Genesis.Authorize3d, Genesis.GooglePay, Genesis.PayPal, Genesis.ApplePay]

  /** `$transaction[$col]` on what `getTransactionById` returned: null when it returned false. */
  function Field(target: Option<Row>, c: Column): Value
  {
    if target.Some? then Get(target.value, c) else Null
  }

  // ---------------------------------------------------------------------
  // the action dialog

  /** The sum of the amounts of the rows of `table` that `getTransactionsByTypeAndStatus` selects. */
  function SumOf(table: seq<Row>, orderId: int, reference: Value, types: seq<string>, status: string): int
  {
    AmountSum(Select(table, x => Matches(x, orderId, reference, types, status)))
  }

  /** `getTransactionsSumAmount` adds up exactly the matching rows of the table. */
  lemma LedgerSumOver(model: AdminModel, orderId: Value, reference: Value, types: seq<string>, status: string)
    requires model.db.Valid()
    ensures LedgerSum(model, orderId, reference, types, status) ==
      SumOf(model.Table(), Abs(IntOf(orderId)), reference, types, status)
  {
  }

  /** A selection is empty exactly when no row matches. */
  lemma SelectEmpty(table: seq<Row>, m: Row -> bool)
    ensures Select(table, m) == [] <==> forall x | x in table :: !m(x)
  {
    if Select(table, m) != [] {
      assert Select(table, m)[0] in Select(table, m);
    }
  }

  /** One more row extends a selection by itself exactly when it matches. */
  lemma SelectSnoc(table: seq<Row>, x: Row, m: Row -> bool)
    ensures Select(table + [x], m) == Select(table, m) + (if m(x) then [x] else [])
  {
    assert (table + [x])[..|table|] == table;
  }

  /** One more row changes a selection's sum by its amount exactly when it matches. */
  lemma SelectSumSnoc(table: seq<Row>, x: Row, m: Row -> bool)
    ensures AmountSum(Select(table + [x], m)) ==
      AmountSum(Select(table, m)) + (if m(x) then AmountOf(Get(x, Amount)) else 0)
  {
    SelectSnoc(table, x, m);
    AmountSumAppend(Select(table, m), if m(x) then [x] else []);
    assert [x][..0] == [];
  }

  /** One more row changes a ledger sum by its amount exactly when it matches. */
  lemma SumOfSnoc(table: seq<Row>, x: Row, orderId: int, reference: Value, types: seq<string>, status: string)
    ensures SumOf(table + [x], orderId, reference, types, status) ==
      SumOf(table, orderId, reference, types, status) +
      (if Matches(x, orderId, reference, types, status) then AmountOf(Get(x, Amount)) else 0)
  {
    SelectSumSnoc(table, x, y => Matches(y, orderId, reference, types, status));
  }

  /** An approved void of the transaction is filed in the order. */
  predicate VoidedIn(table: seq<Row>, orderId: int, target: Option<Row>)
  {
    Select(table, x => Matches(x, orderId, Field(target, UniqueId), [Genesis.Void], Genesis.Approved)) != []
  }

  /**
   * The amount the capture dialog offers: the approved authorizations of
   * the order (those referencing the transaction's own parent, when it has
   * one) less the approved captures referencing the transaction.
   */
  function CaptureAvailable(table: seq<Row>, orderId: int, target: Option<Row>): int
  {
    SumOf(table, orderId, Field(target, ReferenceId), AuthorizeClassTypes, Genesis.Approved) -
    SumOf(table, orderId, Field(target, UniqueId), [Genesis.Capture], Genesis.Approved)
  }

  /**
   * The amount the refund dialog offers: nothing once the transaction is
   * voided, otherwise its amount less the approved refunds referencing it.
   */
  function RefundAvailable(table: seq<Row>, orderId: int, target: Option<Row>): int
  {
    if VoidedIn(table, orderId, target) then 0
    else AmountOf(Field(target, Amount)) - SumOf(table, orderId, Field(target, UniqueId), [Genesis.Refund], Genesis.Approved)
  }

  /** The dialog `getModalForm` renders: the transaction (false reads as nulls) and what the kind adds. */
  datatype Modal =
    | CaptureModal(transaction: Option<Row>, available: int)
    | RefundModal(transaction: Option<Row>, available: int)
    | VoidModal(transaction: Option<Row>, allowed: bool)
    | PlainModal(kind: string, transaction: Option<Row>)

  /**
   * A filed approved capture of the transaction lowers what the capture
   * dialog offers by its amount.
   */
  lemma CaptureLowersCapturable(table: seq<Row>, orderId: int, target: Row, x: Row)
    requires Matches(x, orderId, Get(target, UniqueId), [Genesis.Capture], Genesis.Approved)
    ensures CaptureAvailable(table + [x], orderId, Some(target)) ==
      CaptureAvailable(table, orderId, Some(target)) - AmountOf(Get(x, Amount))
  {
    assert Genesis.Capture !in AuthorizeClassTypes;
    assert !Matches(x, orderId, Get(target, ReferenceId), AuthorizeClassTypes, Genesis.Approved);
    SumOfSnoc(table, x, orderId, Get(target, ReferenceId), AuthorizeClassTypes, Genesis.Approved);
    SumOfSnoc(table, x, orderId, Get(target, UniqueId), [Genesis.Capture], Genesis.Approved);
  }

  /**
   * A filed approved refund of a transaction that is not voided lowers
   * what the refund dialog offers by its amount; a refund never counts as
   * a void.
   */
  lemma RefundLowersRefundable(table: seq<Row>, orderId: int, target: Row, x: Row)
    requires Matches(x, orderId, Get(target, UniqueId), [Genesis.Refund], Genesis.Approved)
    ensures VoidedIn(table + [x], orderId, Some(target)) == VoidedIn(table, orderId, Some(target))
    ensures !VoidedIn(table, orderId, Some(target)) ==>
      RefundAvailable(table + [x], orderId, Some(target)) == RefundAvailable(table, orderId, Some(target)) - AmountOf(Get(x, Amount))
  {
    SelectSnoc(table, x, y => Matches(y, orderId, Get(target, UniqueId), [Genesis.Void], Genesis.Approved));
    SumOfSnoc(table, x, orderId, Get(target, UniqueId), [Genesis.Refund], Genesis.Approved);
  }

  /** A filed approved void of a transaction leaves nothing to refund and closes the void dialog. */
  lemma VoidClosesRefund(table: seq<Row>, orderId: int, target: Row, x: Row)
    requires Matches(x, orderId, Get(target, UniqueId), [Genesis.Void], Genesis.Approved)
    ensures VoidedIn(table + [x], orderId, Some(target))
    ensures RefundAvailable(table + [x], orderId, Some(target)) == 0
  {
    SelectSnoc(table, x, y => Matches(y, orderId, Get(target, UniqueId), [Genesis.Void], Genesis.Approved));
  }

  /** Filing a row under a new id appends it to the table. */
  lemma RowsOfSnoc(ids: seq<string>, rows: map<string, Row>, id: string, row: Row)
    requires forall k | 0 <= k < |ids| :: ids[k] in rows
    requires id !in rows
    ensures RowsOf(ids + [id], rows[id := row]) == RowsOf(ids, rows) + [row]
  {
    var a := RowsOf(ids + [id], rows[id := row]);
    var b := RowsOf(ids, rows) + [row];
    assert forall k | 0 <= k < |ids| :: ids[k] != id;
    assert forall k | 0 <= k < |a| :: a[k] == b[k];
  }

  // ---------------------------------------------------------------------
  // capture, refund and void

  datatype Action = CaptureAction | RefundAction | VoidAction

  /** The POST fields of an action request. */
  datatype ActionRequest = ActionRequest(referenceId: Option<string>, amount: Value, message: Option<string>)

  /**
   * What the admin model's `capture`/`refund`/`void` return: an exception
   * they caught and logged (they return its message), or the gateway's
   * response object.
   */
  datatype Reply =
    | Thrown(e: Exception)
    | Response(uniqueId: Option<string>, transactionType: string, status: string, amount: Value, currency: Value,
               timestamp: Value, message: Option<string>, technicalMessage: Option<string>,
               terminalToken: Option<string>)

  /** The JSON body the action answers with. */
  datatype Json = Json(error: bool, text: Said)

  /** A request sent to the gateway: the action and its arguments (`Null` where the action takes none). */
  datatype Call = Call(action: Action, txType: Value, reference: Value, amount: Value, currency: Value,
                       usage: string, orderId: Value, token: Value)

  /** The usage text the gateway request carries when the admin wrote no message. */
  function DefaultUsage(action: Action): string
  {
    match action
    case CaptureAction => "Capture Opencart Transaction"
    case RefundAction => "Refund Opencart Transaction"
    case VoidAction => "Void Opencart Transaction"
  }

  /** `empty($message) ? '<default>' : $message`. */
  function Usage(action: Action, req: ActionRequest): string
  {
    if req.message.None? || Empty(req.message.value) then DefaultUsage(action) else req.message.value
  }

  /**
   * The `order_id` test on the stored transaction: `abs((int)...) > 0` for
   * capture and void, `intval(...) > 0` for refund.
   */
  predicate OrderIdAccepted(action: Action, row: Row)
  {
    IsSet(row, OrderId) &&
    if action == RefundAction then IntOf(Get(row, OrderId)) > 0 else Abs(IntOf(Get(row, OrderId))) > 0
  }

  /**
   * The phrase an action request is refused with, if any: a missing or
   * blank `reference_id` is an invalid request; a reference with no stored
   * transaction, or one whose `order_id` fails the test, is an invalid
   * reference.
   */
  function Validation(action: Action, req: ActionRequest, target: Option<Row>): (r: Option<string>)
    ensures r.None? <==> (req.referenceId.Some? && Trim(req.referenceId.value) != "" &&
                          target.Some? && OrderIdAccepted(action, target.value))
    ensures req.referenceId.None? || Trim(req.referenceId.value) == "" ==> r == Some("text_invalid_request")
  {
    if req.referenceId.None? || Trim(req.referenceId.value) == "" then Some("text_invalid_request")
    else if target.None? || !OrderIdAccepted(action, target.value) then Some("text_invalid_reference_id")
    else None
  }

  /**
   * The terminal token sent with the request: the stored row's
   * `terminal_token` when the table has that column (`SELECT *` then
   * returns the key, possibly as null), null otherwise.
   */
  function StoredToken(target: Row, tokenColumn: bool): Value
  {
    if tokenColumn then Get(target, TerminalToken) else Null
  }

  /** The gateway request an accepted action sends. */
  function GatewayCall(action: Action, req: ActionRequest, target: Row, tokenColumn: bool): (c: Call)
    ensures c.action == action && c.reference == Get(target, UniqueId) && c.token == StoredToken(target, tokenColumn)
    ensures c.usage == Usage(action, req)
  {
    match action
    case CaptureAction =>
      Call(action, Get(target, Type), Get(target, UniqueId), req.amount, Get(target, Currency), Usage(action, req),
           Get(target, OrderId), StoredToken(target, tokenColumn))
    case RefundAction =>
      Call(action, Get(target, Type), Get(target, UniqueId), req.amount, Get(target, Currency), Usage(action, req),
           Get(target, OrderId), StoredToken(target, tokenColumn))
    case VoidAction =>
      Call(action, Null, Get(target, UniqueId), Null, Null, Usage(action, req), Null, StoredToken(target, tokenColumn))
  }

  /** The gateway answered with a transaction: a response object carrying a `unique_id`. */
  predicate Settled(reply: Reply)
  {
    reply.Response? && reply.uniqueId.Some?
  }

  function OrEmpty(s: Option<string>): string
  {
    if s.Some? then s.value else ""
  }

  /**
   * The data array an answered action files: the target's order, a
   * reference to the target, the answer's id, type and status, its amount
   * and currency (not for a void), its timestamp and messages, and a
   * terminal token: the stored one when the table has that column, else
   * the answer's, if it has one.
   */
  function ChildData(action: Action, target: Row, reply: Reply, tokenColumn: bool): (d: Data)
    requires Settled(reply)
    ensures DistinctKeys(d)
  {
    var head := [(OrderId, Get(target, OrderId)), (ReferenceId, Get(target, UniqueId)),
                 (UniqueId, Str(reply.uniqueId.value)), (Type, Str(reply.transactionType)),
                 (Status, Str(reply.status))];
    var money := if action == VoidAction then [] else [(Amount, reply.amount), (Currency, reply.currency)];
    var tail := [(Timestamp, reply.timestamp), (Message, Str(OrEmpty(reply.message))),
                 (TechnicalMessage, Str(OrEmpty(reply.technicalMessage)))];
    var token := if tokenColumn then [(TerminalToken, Get(target, TerminalToken))]
                 else if reply.terminalToken.Some? then [(TerminalToken, Str(reply.terminalToken.value))]
                 else [];
    head + money + tail + token
  }

  /**
   * What the ledger holds once an answer is filed: a row under the
   * answer's `unique_id`, in the target's order and referencing the
   * target, with the answer's type and status and, but for a void, its
   * amount; every other row is as it was.
   */
  lemma ChildStored(rows: map<string, Row>, action: Action, target: Row, reply: Reply, tokenColumn: bool)
    requires Settled(reply)
    ensures var after := Upsert(rows, ChildData(action, target, reply, tokenColumn));
      var id := reply.uniqueId.value;
      id in after && after.Keys == rows.Keys + {id} &&
      (forall other | other in rows && other != id :: after[other] == rows[other]) &&
      Get(after[id], OrderId) == StoredValue(Get(target, OrderId)) &&
      Get(after[id], ReferenceId) == StoredValue(Get(target, UniqueId)) &&
      Get(after[id], Type) == Str(reply.transactionType) && Get(after[id], Status) == Str(reply.status) &&
      (action != VoidAction ==> Get(after[id], Amount) == StoredValue(reply.amount))
  {
    var d := ChildData(action, target, reply, tokenColumn);
    assert d[0] == (OrderId, Get(target, OrderId)) && d[1] == (ReferenceId, Get(target, UniqueId)) &&
           d[2] == (UniqueId, Str(reply.uniqueId.value)) && d[3] == (Type, Str(reply.transactionType)) &&
           d[4] == (Status, Str(reply.status));
    assert action != VoidAction ==> d[5] == (Amount, reply.amount);
    Filing(rows, d, action != VoidAction, reply.uniqueId.value);
  }

  /**
   * Filing a data array that starts with the order, reference, id, type
   * and status entries (and, with `money`, the amount next): the row filed
   * under the id holds them.
   */
  lemma Filing(rows: map<string, Row>, d: Data, money: bool, id: string)
    requires DistinctKeys(d) && |d| >= 6
    requires d[0].0 == OrderId && d[1].0 == ReferenceId && d[2] == (UniqueId, Str(id)) && d[3].0 == Type && d[4].0 == Status
    requires money ==> d[5].0 == Amount
    ensures var after := Upsert(rows, d);
      id in after && after.Keys == rows.Keys + {id} &&
      (forall other | other in rows && other != id :: after[other] == rows[other]) &&
      Get(after[id], OrderId) == StoredValue(d[0].1) && Get(after[id], ReferenceId) == StoredValue(d[1].1) &&
      Get(after[id], Type) == StoredValue(d[3].1) && Get(after[id], Status) == StoredValue(d[4].1) &&
      (money ==> Get(after[id], Amount) == StoredValue(d[5].1))
  {
    LookupAt(d, 2);
    UpsertOthers(rows, d);
    Filed(rows, d, 0);
    Filed(rows, d, 1);
    Filed(rows, d, 3);
    Filed(rows, d, 4);
    if money {
      Filed(rows, d, 5);
    }
  }

  /**
   * A void files no amount: a new void row has none, and a void answer
   * filed over an existing row leaves that row's amount as it was.
   */
  lemma VoidFilesNoAmount(rows: map<string, Row>, target: Row, reply: Reply, tokenColumn: bool)
    requires Settled(reply)
    ensures var d := ChildData(VoidAction, target, reply, tokenColumn);
      var id := reply.uniqueId.value;
      id in Upsert(rows, d) &&
      (Amount in Upsert(rows, d)[id] <==> id in rows && Amount in rows[id]) &&
      (Currency in Upsert(rows, d)[id] <==> id in rows && Currency in rows[id])
  {
    var d := ChildData(VoidAction, target, reply, tokenColumn);
    assert d[2] == (UniqueId, Str(reply.uniqueId.value));
    assert forall i | 0 <= i < |d| :: d[i].0 != Amount && d[i].0 != Currency;
    Unfiled(rows, d, reply.uniqueId.value);
  }

  /** Filing a data array without amount and currency keeps the row's own (none, for a new row). */
  lemma Unfiled(rows: map<string, Row>, d: Data, id: string)
    requires DistinctKeys(d) && |d| > 2 && d[2] == (UniqueId, Str(id))
    requires forall i | 0 <= i < |d| :: d[i].0 != Amount && d[i].0 != Currency
    ensures id in Upsert(rows, d)
    ensures Amount in Upsert(rows, d)[id] <==> id in rows && Amount in rows[id]
    ensures Currency in Upsert(rows, d)[id] <==> id in rows && Currency in rows[id]
  {
    LookupAt(d, 2);
    UpsertUnsupplied(rows, d, Amount);
    UpsertUnsupplied(rows, d, Currency);
  }

  /**
   * A table without a `terminal_token` column cannot file an answer that
   * carries a terminal token: the write fails on the unknown column (and
   * is only logged), although the action still answers with success.
   */
  lemma AnswerTokenNeedsColumn(action: Action, target: Row, reply: Reply, columns: set<Column>)
    requires Settled(reply) && reply.terminalToken.Some? && TerminalToken !in columns
    ensures UnknownColumn(ChildData(action, target, reply, false), columns).Some?
    ensures !ReplyJson(reply).error
  {
    var d := ChildData(action, target, reply, false);
    assert d[|d| - 1].0 == TerminalToken;
  }

  /** The JSON answer to a request the gateway was asked about. */
  function ReplyJson(reply: Reply): (json: Json)
    ensures json.error <==> !Settled(reply)
    ensures reply.Thrown? ==> json.text == Lang("text_response_failure")
  {
    match reply
    case Thrown(_) => Json(true, Lang("text_response_failure"))
    case Response(uniqueId, _, _, _, _, _, message, _, _) =>
      if uniqueId.Some? then
        Json(false, if message.Some? then Gateway(message.value) else Lang("text_response_success"))
      else
        Json(true, if message.Some? then Gateway(message.value) else Lang("text_response_failure"))
  }

  const Http500 := "HTTP/1.0 500 Internal Server Error"

  /** The headers an action answer adds: every error first adds the 500 status, to trigger the page's error handling. */
  function ResponseHeaders(json: Json): seq<string>
  {
    (if json.error then [Http500] else []) + [ContentTypeJson]
  }

  /**
   * The ledger after `populateTransaction(d)`: the upsert, or, when the
   * write fails, the old table and the error in the log.
   */
  ghost predicate Populated(db: DbHelper, rows0: map<string, Row>, ids0: seq<string>, log0: seq<string>,
                            d: Data, failure: Option<Exception>)
    reads db
    requires DistinctKeys(d)
  {
    db.State() == Write(db, Ledger(ids0, rows0, log0), d, failure)
  }

  /**
   * What the three actions do before the gateway call, as written: the
   * `array_key_exists('terminal_token', $transaction)` runs before the
   * `order_id` test, also when `getTransactionById` returned false.
   */
  datatype Stage = TypeError | Rejected(key: string) | Proceed(token: Value)

  /** What `getOrderRecurringId` as written gives: the recurring order's id, or a TypeError. */
  datatype Fetched = FetchTypeError | Fetched(id: int)

  function PrepareAsWritten(action: Action, req: ActionRequest, target: Option<Row>, tokenColumn: bool): Stage
  {
    if req.referenceId.None? || Trim(req.referenceId.value) == "" then Rejected("text_invalid_request")
    else if target.None? then TypeError
    else if !OrderIdAccepted(action, target.value) then Rejected("text_invalid_reference_id")
    else Proceed(StoredToken(target.value, tokenColumn))
  }

  /**
   * A `reference_id` with no stored transaction: as written, PHP 8's
   * `array_key_exists` rejects the `false` with a TypeError, so the request
   * dies without a JSON answer, although the `order_id` test right after
   * it exists to answer `text_invalid_reference_id`; `Validation` answers so.
   */
  lemma UnknownReferenceFailsAsWritten(action: Action, req: ActionRequest, tokenColumn: bool)
    requires req.referenceId.Some? && Trim(req.referenceId.value) != ""
    ensures PrepareAsWritten(action, req, None, tokenColumn) == TypeError
    ensures Validation(action, req, None) == Some("text_invalid_reference_id")
  {
  }

  /** For a stored transaction the two agree: the fix changes nothing else. */
  lemma PrepareAgreesOnStored(action: Action, req: ActionRequest, target: Option<Row>, tokenColumn: bool)
    requires target.Some? || req.referenceId.None? || Trim(req.referenceId.value) == ""
    ensures PrepareAsWritten(action, req, target, tokenColumn) ==
      if Validation(action, req, target).Some? then Rejected(Validation(action, req, target).value)
      else Proceed(StoredToken(target.value, tokenColumn))
  {
  }

  /**
   * The admin controller of one payment method, over the method's admin
   * model (and through it the ledger) and the shop's order tables.
   */
  class AdminController {
    const model: AdminModel
    const shop: Shop
    /** The requests sent to the gateway, oldest first. */
    var calls: seq<Call>
    /** The response headers added, in order. */
    var headers: seq<string>
    /** The JSON bodies answered, in order. */
    var responses: seq<Json>

    constructor(model: AdminModel, shop: Shop)
      ensures this.model == model && this.shop == shop
      ensures calls == [] && headers == [] && responses == []
    {
      this.model := model;
      this.shop := shop;
      calls := [];
      headers := [];
      responses := [];
    }

    /** The stored transaction a request names, if it names one. */
    function Target(req: ActionRequest): Option<Row>
      reads model.db
      requires model.db.Valid()
    {
      if req.referenceId.Some? then model.GetTransactionById(req.referenceId.value) else None
    }

    /** The capture dialog's amount: the approved authorizations less the approved captures. */
    function CaptureOffer(target: Option<Row>, orderId: Value): (r: int)
      reads model.db
      requires model.db.Valid()
      ensures r == CaptureAvailable(model.Table(), Abs(IntOf(orderId)), target)
    {
      LedgerSumOver(model, orderId, Field(target, ReferenceId), AuthorizeClassTypes, Genesis.Approved);
      LedgerSumOver(model, orderId, Field(target, UniqueId), [Genesis.Capture], Genesis.Approved);
      LedgerSum(model, orderId, Field(target, ReferenceId), AuthorizeClassTypes, Genesis.Approved) -
      LedgerSum(model, orderId, Field(target, UniqueId), [Genesis.Capture], Genesis.Approved)
    }

    /** The void test of the dialogs: no approved void references the transaction. */
    function VoidAllowed(target: Option<Row>, orderId: Value): (r: bool)
      reads model.db
      requires model.db.Valid()
      ensures r <==> !VoidedIn(model.Table(), Abs(IntOf(orderId)), target)
    {
      var m := x => Matches(x, Abs(IntOf(orderId)), Field(target, UniqueId), [Genesis.Void], Genesis.Approved);
      var found := model.GetTransactionsByTypeAndStatus(orderId, Field(target, UniqueId), [Genesis.Void], Genesis.Approved);
      SelectEmpty(model.Table(), m);
      found.None?
    }

    /** The refund dialog's amount: nothing once voided, else the amount less the approved refunds. */
    function RefundOffer(target: Option<Row>, orderId: Value): (r: int)
      reads model.db
      requires model.db.Valid()
      ensures r == RefundAvailable(model.Table(), Abs(IntOf(orderId)), target)
    {
      if !VoidAllowed(target, orderId) then 0
      else
        LedgerSumOver(model, orderId, Field(target, UniqueId), [Genesis.Refund], Genesis.Approved);
        AmountOf(Field(target, Amount)) - LedgerSum(model, orderId, Field(target, UniqueId), [Genesis.Refund], Genesis.Approved)
    }

    /**
     * `getModalForm`: nothing unless the request names a reference and a
     * kind; otherwise the dialog for the named transaction (which may be
     * missing), with the amount available to capture or refund, or whether
     * a void is still allowed.
     */
    function ModalForm(referenceId: Option<string>, kind: Option<string>, orderId: Value): (r: Option<Modal>)
      reads model.db
      requires model.db.Valid()
      ensures r.None? <==> referenceId.None? || kind.None?
      ensures r.Some? ==> r.value.transaction == model.GetTransactionById(referenceId.value)
      ensures r.Some? && kind.value == "capture" ==>
        r.value.CaptureModal? && r.value.available == CaptureAvailable(model.Table(), Abs(IntOf(orderId)), r.value.transaction)
      ensures r.Some? && kind.value == "refund" ==>
        r.value.RefundModal? && r.value.available == RefundAvailable(model.Table(), Abs(IntOf(orderId)), r.value.transaction)
      ensures r.Some? && kind.value == "void" ==>
        r.value.VoidModal? && (r.value.allowed <==> !VoidedIn(model.Table(), Abs(IntOf(orderId)), r.value.transaction))
      ensures r.Some? && kind.value !in ["capture", "refund", "void"] ==> r.value == PlainModal(kind.value, r.value.transaction)
    {
      if referenceId.None? || kind.None? then None
      else
        var target := model.GetTransactionById(referenceId.value);
        if kind.value == "capture" then Some(CaptureModal(target, CaptureOffer(target, orderId)))
        else if kind.value == "refund" then Some(RefundModal(target, RefundOffer(target, orderId)))
        else if kind.value == "void" then Some(VoidModal(target, VoidAllowed(target, orderId)))
        else Some(PlainModal(kind.value, target))
    }

    /** A listed transaction with the actions the list offers on it. */
    function Annotate(orderId: Value, e: TransactionTree.Entry, sdk: Genesis.Sdk, selected: Option<seq<string>>): Listed
      reads model.db
      requires model.db.Valid()
    {
      var capture := CanCaptureTransaction(e.row, sdk, selected);
      var refund := CanRefundTransaction(e.row, sdk, selected);
      var void := CanVoidTransaction(e.row, sdk);
      Listed(e, capture, refund, void, IsVoidTransactionExist(model, orderId, e.row))
    }

    /** The annotation loop of `order()`: every entry with the actions it offers, in list order. */
    method AnnotateAll(orderId: Value, out: seq<TransactionTree.Entry>, sdk: Genesis.Sdk, selected: Option<seq<string>>)
      returns (listed: seq<Listed>)
      requires model.db.Valid()
      ensures |listed| == |out|
      ensures forall i | 0 <= i < |out| :: listed[i] == Annotate(orderId, out[i], sdk, selected)
    {
      listed := [];
      var i := 0;
      while i < |out|
        invariant 0 <= i <= |out|
        invariant |listed| == i
        invariant forall k | 0 <= k < i :: listed[k] == Annotate(orderId, out[k], sdk, selected)
      {
        var item := Annotate(orderId, out[i], sdk, selected);
        listed := listed + [item];
        i := i + 1;
      }
    }

    /**
     * `order()`, corrected (Findings row 1): nothing when the module is
     * disabled or the order has no transactions; otherwise the order's
     * transactions, parents before their children and roots oldest first
     * by the stored time, where the source sorts on the "H:i:s m/d/Y"
     * text; each with the actions it offers.
     */
    method TransactionList(orderId: Value, enabled: bool, sdk: Genesis.Sdk, selected: Option<seq<string>>)
      returns (r: Option<seq<Listed>>)
      requires model.db.Valid()
      ensures !enabled || model.GetTransactionsByOrder(orderId).None? ==> r.None?
      ensures enabled && model.GetTransactionsByOrder(orderId).Some? ==> Listing(orderId, sdk, selected, r)
    {
      if !enabled {
        return None;
      }
      var transactions := model.GetTransactionsByOrder(orderId);
      if transactions.None? {
        return None;
      }
      UniqueRowUids(transactions.value);
      var out := TransactionTree.Order(transactions.value, TransactionTree.ChronologicalKey);
      var listed := AnnotateAll(orderId, out, sdk, selected);
      r := Some(listed);
    }

    /**
     * The list of an order that has transactions: its rows ordered as a
     * tree with roots oldest first, each with the actions it offers.
     */
    ghost predicate Listing(orderId: Value, sdk: Genesis.Sdk, selected: Option<seq<string>>, r: Option<seq<Listed>>)
      reads model.db
      requires model.db.Valid() && model.GetTransactionsByOrder(orderId).Some?
    {
      var ts := model.GetTransactionsByOrder(orderId).value;
      UniqueRowUids(ts);
      var out := TransactionTree.Ordered(ts, TransactionTree.ChronologicalKey);
      r.Some? && |r.value| == |out| &&
      forall i | 0 <= i < |out| :: r.value[i] == Annotate(orderId, out[i], sdk, selected)
    }

    /** The ledger table has a `terminal_token` column (the checkout table has one, the direct table has not). */
    predicate TokenColumn()
    {
      TerminalToken in model.db.columns
    }

    /** `updateOrder`: set the order's status and add the history entry. */
    method UpdateOrder(orderId: int, statusId: int, comment: string, notify: bool)
      modifies shop`orderStatus, shop`history
      ensures shop.history == old(shop.history) + [History(orderId, statusId, comment, notify)]
      ensures shop.orderStatus ==
        if orderId in old(shop.orderStatus) then old(shop.orderStatus)[orderId := statusId] else old(shop.orderStatus)
    {
      shop.Record(orderId, statusId, comment, notify);
    }

    /**
     * `getOrderRecurringId`, corrected: the recurring order of an order, if
     * it has one (Findings row 5; `cancelOrderRecurring` then updates no
     * row and `addRecurringTransaction` adds nothing).
     */
    function OrderRecurringId(orderId: int): Option<int>
      reads shop
    {
      if orderId in shop.recurringOf then Some(shop.recurringOf[orderId]) else None
    }

    /**
     * `getOrderRecurringId` as written: declared to return a string, it
     * returns the missing column of a query without rows, null, which PHP
     * rejects with a TypeError that nothing catches.
     */
    function OrderRecurringIdAsWritten(orderId: int): (r: Fetched)
      reads shop
      ensures r.FetchTypeError? <==> OrderRecurringId(orderId).None?
      ensures r.Fetched? ==> OrderRecurringId(orderId) == Some(r.id)
    {
      if orderId in shop.recurringOf then Fetched(shop.recurringOf[orderId]) else FetchTypeError
    }

    /**
     * `cancelOrderRecurring`: set the order's recurring order to cancelled;
     * true when that changed a row.
     */
    method CancelOrderRecurring(orderId: int) returns (cancelled: bool)
      modifies shop`recurringStatus
      ensures var rid := OrderRecurringId(orderId);
        shop.recurringStatus ==
          if rid.Some? && rid.value in old(shop.recurringStatus)
          then old(shop.recurringStatus)[rid.value := RecurringStatusCancelled]
          else old(shop.recurringStatus)
      ensures var rid := OrderRecurringId(orderId);
        cancelled <==> rid.Some? && rid.value in old(shop.recurringStatus) &&
                       old(shop.recurringStatus)[rid.value] != RecurringStatusCancelled
    {
      var rid := OrderRecurringId(orderId);
      cancelled := false;
      if rid.Some? && rid.value in shop.recurringStatus {
        cancelled := shop.recurringStatus[rid.value] != RecurringStatusCancelled;
        shop.recurringStatus := shop.recurringStatus[rid.value := RecurringStatusCancelled];
      }
    }

    /**
     * `addRecurringTransaction`: a recurring transaction of the given type
     * for the order's recurring order, when the order has a non-zero one.
     */
    method AddRecurringTransaction(orderId: int, uniqueId: string, amount: int, txnType: int) returns (added: bool)
      modifies shop`recurringTransactions
      ensures added <==> OrderRecurringId(orderId).Some? && OrderRecurringId(orderId).value != 0
      ensures shop.recurringTransactions == old(shop.recurringTransactions) +
        if added then [RecurringTransaction(OrderRecurringId(orderId).value, uniqueId, txnType, amount)] else []
    {
      var rid := OrderRecurringId(orderId);
      added := rid.Some? && rid.value != 0;
      if added {
        shop.recurringTransactions := shop.recurringTransactions + [RecurringTransaction(rid.value, uniqueId, txnType, amount)];
      }
    }

    /** Adds the answer's headers and body. */
    method Respond(json: Json)
      modifies this`headers, this`responses
      ensures headers == old(headers) + ResponseHeaders(json)
      ensures responses == old(responses) + [json]
    {
      if json.error {
        headers := headers + [Http500];
      }
      headers := headers + [ContentTypeJson];
      responses := responses + [json];
    }

    /**
     * What answering an action request leaves behind, against the state
     * before it: a refused request reaches neither the gateway nor the
     * ledger and answers with the refusal; an accepted one sends the
     * gateway request and answers with the gateway's answer (an exception
     * the admin model caught is logged there), which, when
     * it settled, is filed as a child row of the stored transaction.
     */
    ghost predicate Answered(action: Action, req: ActionRequest, target: Option<Row>, reply: Reply,
                             failure: Option<Exception>, json: Json,
                             calls0: seq<Call>, rows0: map<string, Row>, ids0: seq<string>, log0: seq<string>)
      reads this`calls, model.db
    {
      match Validation(action, req, target)
      case Some(key) =>
        json == Json(true, Lang(key)) && calls == calls0 &&
        model.db.rows == rows0 && model.db.ids == ids0 && model.db.log == log0
      case None =>
        json == ReplyJson(reply) && calls == calls0 + [GatewayCall(action, req, target.value, TokenColumn())] &&
        if Settled(reply) then Populated(model.db, rows0, ids0, log0, ChildData(action, target.value, reply, TokenColumn()), failure)
        else (model.db.rows == rows0 && model.db.ids == ids0 &&
              model.db.log == log0 + (if reply.Thrown? then model.db.LogLines(reply.e) else []))
    }

    /** The part the three actions share: validate, call the gateway and file its answer. */
    method Answer(action: Action, req: ActionRequest, reply: Reply, failure: Option<Exception>) returns (json: Json)
      requires model.db.Valid()
      modifies model.db`ids, model.db`rows, model.db`log, this`calls
      ensures model.db.Valid()
      ensures Answered(action, req, old(Target(req)), reply, failure, json,
                       old(calls), old(model.db.rows), old(model.db.ids), old(model.db.log))
    {
      var target := Target(req);
      var refused := Validation(action, req, target);
      if refused.Some? {
        json := Json(true, Lang(refused.value));
        return;
      }
      var row := target.value;
      calls := calls + [GatewayCall(action, req, row, TokenColumn())];
      if reply.Thrown? {
        model.db.LogEx(reply.e);
      }
      if Settled(reply) {
        var data := ChildData(action, row, reply, TokenColumn());
        model.db.PopulateTransaction(data, failure);
      }
      json := ReplyJson(reply);
    }

    /**
     * `capture`: validate the request, ask the gateway to capture the
     * stored transaction, file the answer as its child and answer in JSON;
     * every error answer carries the 500 status.
     */
    method Capture(req: ActionRequest, reply: Reply, failure: Option<Exception>) returns (json: Json)
      requires model.db.Valid()
      modifies model.db`ids, model.db`rows, model.db`log, this`calls, this`headers, this`responses
      ensures model.db.Valid()
      ensures Answered(CaptureAction, req, old(Target(req)), reply, failure, json,
                       old(calls), old(model.db.rows), old(model.db.ids), old(model.db.log))
      ensures headers == old(headers) + ResponseHeaders(json) && responses == old(responses) + [json]
    {
      json := Answer(CaptureAction, req, reply, failure);
      Respond(json);
    }

    /** `void`: as `capture`, for a void of the stored transaction. */
    method Void(req: ActionRequest, reply: Reply, failure: Option<Exception>) returns (json: Json)
      requires model.db.Valid()
      modifies model.db`ids, model.db`rows, model.db`log, this`calls, this`headers, this`responses
      ensures model.db.Valid()
      ensures Answered(VoidAction, req, old(Target(req)), reply, failure, json,
                       old(calls), old(model.db.rows), old(model.db.ids), old(model.db.log))
      ensures headers == old(headers) + ResponseHeaders(json) && responses == old(responses) + [json]
    {
      json := Answer(VoidAction, req, reply, failure);
      Respond(json);
    }

    /**
     * `refund`: as `capture`, for a refund; in addition, when the refunded
     * transaction is an initial recurring sale and the approved refunds
     * referencing it (the new one included) add up to its amount, its
     * recurring order is closed (`RecurringRefund`).
     */
    method Refund(req: ActionRequest, reply: Reply, failure: Option<Exception>) returns (json: Json)
      requires model.db.Valid()
      modifies model.db`ids, model.db`rows, model.db`log, this`calls, this`headers, this`responses
      modifies shop`orderStatus, shop`history, shop`recurringStatus, shop`recurringTransactions
      ensures model.db.Valid()
      ensures Answered(RefundAction, req, old(Target(req)), reply, failure, json,
                       old(calls), old(model.db.rows), old(model.db.ids), old(model.db.log))
      ensures headers == old(headers) + ResponseHeaders(json) && responses == old(responses) + [json]
      ensures !FullyRefunded(req, old(Target(req)), reply) ==>
        shop.orderStatus == old(shop.orderStatus) && shop.history == old(shop.history) &&
        shop.recurringStatus == old(shop.recurringStatus) && shop.recurringTransactions == old(shop.recurringTransactions)
      ensures FullyRefunded(req, old(Target(req)), reply) ==>
        Closed(IntOf(Get(old(Target(req)).value, OrderId)), reply.uniqueId.value, AmountOf(Get(old(Target(req)).value, Amount)),
               old(shop.orderStatus), old(shop.history), old(shop.recurringStatus), old(shop.recurringTransactions))
    {
      var target := Target(req);
      json := Answer(RefundAction, req, reply, failure);
      FollowRefund(req, target, reply);
      Respond(json);
    }

    /** What a refund does after it is filed: close the recurring order the refund completes. */
    method FollowRefund(req: ActionRequest, target: Option<Row>, reply: Reply)
      requires model.db.Valid()
      modifies shop`orderStatus, shop`history, shop`recurringStatus, shop`recurringTransactions
      ensures !FullyRefunded(req, target, reply) ==>
        shop.orderStatus == old(shop.orderStatus) && shop.history == old(shop.history) &&
        shop.recurringStatus == old(shop.recurringStatus) && shop.recurringTransactions == old(shop.recurringTransactions)
      ensures FullyRefunded(req, target, reply) ==>
        Closed(IntOf(Get(target.value, OrderId)), reply.uniqueId.value, AmountOf(Get(target.value, Amount)),
               old(shop.orderStatus), old(shop.history), old(shop.recurringStatus), old(shop.recurringTransactions))
    {
      if Validation(RefundAction, req, target).None? && Settled(reply) {
        var _ := RecurringRefund(target.value, reply.uniqueId.value);
      }
    }

    /**
     * The shop after the recurring order of order `orderId` is closed: the
     * order is Refunded (the customer is not notified), its recurring order
     * cancelled, and the cancellation with the refunded total added to the
     * recurring order's transactions.
     */
    ghost predicate Closed(orderId: int, uniqueId: string, refunded: int, orderStatus0: map<int, int>, history0: seq<History>,
                           recurringStatus0: map<int, int>, recurringTransactions0: seq<RecurringTransaction>)
      reads shop
    {
      var rid := OrderRecurringId(orderId);
      shop.history == history0 + [History(orderId, OrderStatusRefunded, "text_recurring_fully_refunded", false)] &&
      shop.orderStatus == (if orderId in orderStatus0 then orderStatus0[orderId := OrderStatusRefunded] else orderStatus0) &&
      shop.recurringStatus == (if rid.Some? && rid.value in recurringStatus0
                               then recurringStatus0[rid.value := RecurringStatusCancelled]
                               else recurringStatus0) &&
      shop.recurringTransactions == recurringTransactions0 +
        (if rid.Some? && rid.value != 0 then [RecurringTransaction(rid.value, uniqueId, RecurringTxnCancelled, refunded)] else [])
    }

    /**
     * The recurring part of a refund that completes the refunds of an
     * initial recurring sale of order `orderId`: cancel the order's
     * recurring order, add the cancellation with the refunded total and set
     * the order to Refunded without notifying the customer.
     */
    method CloseRecurringOrder(orderId: int, uniqueId: string, refunded: int)
      modifies shop`orderStatus, shop`history, shop`recurringStatus, shop`recurringTransactions
      ensures Closed(orderId, uniqueId, refunded, old(shop.orderStatus), old(shop.history),
                     old(shop.recurringStatus), old(shop.recurringTransactions))
    {
      var _ := CancelOrderRecurring(orderId);
      var _ := AddRecurringTransaction(orderId, uniqueId, refunded, RecurringTxnCancelled);
      UpdateOrder(orderId, OrderStatusRefunded, "text_recurring_fully_refunded", false);
    }

    /**
     * A full refund of an initial recurring sale whose order has no
     * recurring order: as written, the refund is filed and then the request
     * dies in `cancelOrderRecurring` without a JSON answer.
     */
    lemma FullRefundWithoutRecurringOrderDies(req: ActionRequest, target: Option<Row>, reply: Reply)
      requires model.db.Valid()
      requires FullyRefunded(req, target, reply) && IntOf(Get(target.value, OrderId)) !in shop.recurringOf
      ensures Validation(RefundAction, req, target).None? && Settled(reply)
      ensures OrderRecurringIdAsWritten(IntOf(Get(target.value, OrderId))) == FetchTypeError
    {
    }

    /**
     * Corrected, closing the recurring order of an order that has none
     * still sets the order to Refunded and records the history entry, and
     * leaves every recurring order and recurring transaction as it was.
     */
    lemma ClosedWithoutRecurringOrder(orderId: int, uniqueId: string, refunded: int, orderStatus0: map<int, int>,
                                      history0: seq<History>, recurringStatus0: map<int, int>,
                                      recurringTransactions0: seq<RecurringTransaction>)
      requires orderId !in shop.recurringOf
      requires Closed(orderId, uniqueId, refunded, orderStatus0, history0, recurringStatus0, recurringTransactions0)
      ensures shop.recurringStatus == recurringStatus0 && shop.recurringTransactions == recurringTransactions0
      ensures shop.history == history0 + [History(orderId, OrderStatusRefunded, "text_recurring_fully_refunded", false)]
      ensures orderId in orderStatus0 ==> shop.orderStatus[orderId] == OrderStatusRefunded
    {
    }

    /**
     * The recurring part of a settled refund of `row`: when `row` is an
     * initial recurring sale whose approved refunds now add up to its
     * amount, close its recurring order (`closed`).
     */
    method RecurringRefund(row: Row, uniqueId: string) returns (closed: bool)
      requires model.db.Valid()
      modifies shop`orderStatus, shop`history, shop`recurringStatus, shop`recurringTransactions
      ensures closed <==> (IsInitialRecurringTransaction(TypeOf(row)) &&
        AmountOf(Get(row, Amount)) == LedgerSum(model, Get(row, OrderId), Get(row, UniqueId), [Genesis.Refund], Genesis.Approved))
      ensures !closed ==>
        shop.orderStatus == old(shop.orderStatus) && shop.history == old(shop.history) &&
        shop.recurringStatus == old(shop.recurringStatus) && shop.recurringTransactions == old(shop.recurringTransactions)
      ensures closed ==>
        Closed(IntOf(Get(row, OrderId)), uniqueId, AmountOf(Get(row, Amount)), old(shop.orderStatus), old(shop.history),
               old(shop.recurringStatus), old(shop.recurringTransactions))
    {
      closed := false;
      if IsInitialRecurringTransaction(TypeOf(row)) {
        var refunded := model.GetTransactionsSumAmount(Get(row, OrderId), Get(row, UniqueId), [Genesis.Refund], Genesis.Approved);
        if AmountOf(Get(row, Amount)) == refunded {
          CloseRecurringOrder(IntOf(Get(row, OrderId)), uniqueId, refunded);
          closed := true;
        }
      }
    }

    /**
     * The refund completes the refunds of an initial recurring sale: it
     * was accepted and answered, and afterwards the approved refunds
     * referencing the sale add up to the sale's amount.
     */
    function FullyRefunded(req: ActionRequest, target: Option<Row>, reply: Reply): bool
      reads model.db
      requires model.db.Valid()
    {
      Validation(RefundAction, req, target).None? && Settled(reply) &&
      IsInitialRecurringTransaction(TypeOf(target.value)) &&
      AmountOf(Get(target.value, Amount)) ==
        LedgerSum(model, Get(target.value, OrderId), Get(target.value, UniqueId), [Genesis.Refund], Genesis.Approved)
    }
  }
}
