/**
 * The OpenCart tables the plugin writes besides its own transactions
 * table: the order status and the order history, the recurring orders and
 * their transactions. The shop core's own bookkeeping (stock, mails,
 * totals) is not part of this model; `Record` keeps only what the plugin
 * relies on, the new status and the history entry.
 */
module OpenCart {
  import opened Php
  import opened Rows

  /** The POSTed form (`$this->request->post`); the config is a map of the same kind. */
  type Post = map<string, Value>

  /** `$this->request->post[$key]`: null when the key was not sent. */
  function PostValue(post: Post, key: string): Value
  {
    if key in post then post[key] else Null
  }

  /** A text shown to the user: a language phrase (by key) or a message taken as it is. */
  datatype Said = Lang(key: string) | Gateway(text: string)

  const ContentTypeJson := "Content-Type: application/json"
  const ContentTypeXml := "Content-Type: text/xml"

  /**
   * What `$this->url->link($route, $query)` is asked for; the store's base
   * URL that OpenCart puts in front is not modelled.
   */
  datatype Link = Link(route: string, query: string)

  /** Where a JSON answer sends the browser: a store route or a URL the gateway gave. */
  datatype Target = Route(link: Link) | External(url: Value)

  /** A response body: a JSON error, a JSON redirect, or the XML acknowledgement of a notification. */
  datatype Output = JsonError(error: Said) | JsonRedirect(redirect: Target) | Acknowledgement(uniqueId: Value)

  /** OpenCart's response object: the headers added, in order, and the output last set. */
  class Response {
    var headers: seq<string>
    var output: Option<Output>

    constructor()
      ensures headers == [] && output == None
    {
      headers := [];
      output := None;
    }

    /** `addHeader` then `setOutput`: the header is appended and the body replaces any earlier one. */
    method Send(header: string, body: Output)
      modifies this
      ensures headers == old(headers) + [header] && output == Some(body)
    {
      headers := headers + [header];
      output := Some(body);
    }
  }

  /** One `order_history` row: the order, the new status, the comment and whether the customer is told. */
  datatype History = History(orderId: int, statusId: int, comment: string, notify: bool)

  /** The order statuses after `Shop.Record` of the entry, if there is one. */
  function Applied(orderStatus: map<int, int>, entry: Option<History>): (r: map<int, int>)
    ensures r.Keys == orderStatus.Keys
    ensures entry.Some? && entry.value.orderId in orderStatus ==> r[entry.value.orderId] == entry.value.statusId
    ensures forall id | id in orderStatus && (entry.None? || id != entry.value.orderId) :: r[id] == orderStatus[id]
  {
    if entry.Some? && entry.value.orderId in orderStatus then orderStatus[entry.value.orderId := entry.value.statusId]
    else orderStatus
  }

  /** One `order_recurring_transaction` row. */
  datatype RecurringTransaction = RecurringTransaction(orderRecurringId: int, reference: string, txnType: int, amount: int)

  class Shop {
    /** `order.order_status_id` by `order_id`. */
    var orderStatus: map<int, int>
    /** The `order_history` table, oldest first. */
    var history: seq<History>
    /** `order_recurring.order_recurring_id` by the `order_id` it belongs to. */
    var recurringOf: map<int, int>
    /** `order_recurring.status` by `order_recurring_id`. */
    var recurringStatus: map<int, int>
    /** The `order_recurring_transaction` table, oldest first. */
    var recurringTransactions: seq<RecurringTransaction>

    constructor(orderStatus: map<int, int>, recurringOf: map<int, int>, recurringStatus: map<int, int>)
      ensures this.orderStatus == orderStatus && history == []
      ensures this.recurringOf == recurringOf && this.recurringStatus == recurringStatus
      ensures recurringTransactions == []
    {
      this.orderStatus := orderStatus;
      history := [];
      this.recurringOf := recurringOf;
      this.recurringStatus := recurringStatus;
      recurringTransactions := [];
    }

    /**
     * An order status change: the `UPDATE order SET order_status_id`
     * (which touches nothing for an unknown order) followed by the
     * `order_history` insert. The admin side's `updateOrder` and the
     * catalog side's `addHistory` both end in this.
     */
    method Record(orderId: int, statusId: int, comment: string, notify: bool)
      modifies this`orderStatus, this`history
      ensures history == old(history) + [History(orderId, statusId, comment, notify)]
      ensures orderStatus == if orderId in old(orderStatus) then old(orderStatus)[orderId := statusId] else old(orderStatus)
    {
      if orderId in orderStatus {
        orderStatus := orderStatus[orderId := statusId];
      }
      history := history + [History(orderId, statusId, comment, notify)];
    }
  }
}
