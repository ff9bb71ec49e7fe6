/**
 * The recurring log report of the admin page (`getRecurringLog`): the
 * joined cron-log rows, newest log entry first, are grouped into one
 * summary line per run of equal `log_entry_id`, each followed by the
 * lines of its transactions. Rows that belong to no recurring order are
 * skipped. The summary carries the total amount and the number of its
 * transactions.
 */
module RecurringLog {
  import opened Php
  import opened Rows

  /**
   * One row of the cron-log join. `alive` is whether the run's process is
   * still its own process group leader (`posix_getpgid($pid) == $pid`)
   * when the report is built; amounts are exact minor units.
   */
  datatype LogRow = LogRow(logEntryId: Value, reference: Value, orderId: Value, orderRecurringId: Value,
                           startTime: Value, transactionDate: Value, amount: int, currency: Value,
                           runTime: Value, pid: Value, alive: bool, txnType: Value)

  /** The status column: the state of a cron run, or the phrase of a transaction type. */
  datatype Status = Running(pid: Value) | Terminated | Completed(runTime: Value) | Lang(key: string) | Blank

  /**
   * One line of `$tmp`: a summary line has an empty `ref_log_entry_id`
   * and counts its transactions in `order_recurring_id`; a transaction
   * line names its log entry in `ref_log_entry_id`.
   */
  datatype Line = Line(logEntryId: Value, refLogEntryId: Value, orderId: Value, date: Value, amount: int,
                       currency: Value, orderRecurringId: Value, status: Status)

  /** `getLogEntryStatus`: completed once a run time is stored, else running or terminated by the process check. */
  function LogEntryStatus(runTime: Value, pid: Value, alive: bool): (r: Status)
    ensures r.Completed? <==> runTime != Null
    ensures r.Running? <==> runTime == Null && alive
    ensures r.Completed? ==> r.runTime == runTime
    ensures r.Running? ==> r.pid == pid
  {
    if runTime == Null then (if alive then Running(pid) else Terminated)
    else Completed(runTime)
  }

  /** The phrase keys of the recurring transaction types 0 to 9 of `getRecurringTransactionType`. */
  const RecurringTypeKeys := ["text_transaction_date_added", "text_transaction_payment",
    "text_transaction_outstanding_payment", "text_transaction_skipped", "text_transaction_failed",
    "text_transaction_cancelled", "text_transaction_suspended", "text_transaction_suspended_failed",
    "text_transaction_outstanding_failed", "text_transaction_expired"]

  /** A PHP value as far as the declared return type looks at it. */
  datatype PhpValue = PhpString(s: string) | PhpArray(items: seq<string>)

  /** What a call to a function declared `: array` yields: its value, or a TypeError for anything but an array. */
  datatype Returned = TypeError | Returned(value: PhpValue)

  function DeclaredArray(v: PhpValue): (r: Returned)
    ensures r.TypeError? <==> !v.PhpArray?
  {
    if v.PhpArray? then Returned(v) else TypeError
  }

  /**
   * `getRecurringTransactionType` as written: it is declared to return an
   * array but returns a string (the phrase, or '') on both of its paths.
   */
  function RecurringTransactionTypeAsWritten(typeId: int): (r: Returned)
    ensures r.TypeError?
  {
    var result := if 0 <= typeId < |RecurringTypeKeys| then RecurringTypeKeys[typeId] else "";
    DeclaredArray(PhpString(result))
  }

  /** `getRecurringTransactionType` as intended: the type's phrase, or empty for an unknown type. */
  function RecurringTransactionType(typeId: int): (r: Status)
    ensures 0 <= typeId < |RecurringTypeKeys| <==> r.Lang?
    ensures r.Lang? ==> r.key == RecurringTypeKeys[typeId]
  {
    if 0 <= typeId < |RecurringTypeKeys| then Lang(RecurringTypeKeys[typeId]) else Blank
  }

  /** A transaction of type 1 shows as a payment once corrected, but as written it aborts the whole report. */
  lemma RecurringTypeFailsAsWritten()
    ensures RecurringTransactionTypeAsWritten(1).TypeError?
    ensures RecurringTransactionType(1) == Lang("text_transaction_payment")
  {
  }

  // ---------------------------------------------------------------------
  // the reference grouping

  /** `!empty($row['order_recurring_id'])`: the row belongs to a recurring order. */
  predicate Recurring(r: LogRow)
  {
    Truthy(r.orderRecurringId)
  }

  /**
   * The runs of the report: the recurring rows, split wherever the log
   * entry changes.
   */
  function Groups(rows: seq<LogRow>): (gs: seq<seq<LogRow>>)
    ensures forall k | 0 <= k < |gs| :: gs[k] != []
  {
    if rows == [] then []
    else
      var gs := Groups(rows[..|rows| - 1]);
      var r := rows[|rows| - 1];
      if !Recurring(r) then gs
      else if gs == [] || r.logEntryId != gs[|gs| - 1][0].logEntryId then gs + [[r]]
      else gs[..|gs| - 1] + [gs[|gs| - 1] + [r]]
  }

  /** The sum of the amounts of `g`. */
  function Total(g: seq<LogRow>): int
  {
    if g == [] then 0 else Total(g[..|g| - 1]) + g[|g| - 1].amount
  }

  /** The summary line of a run: its first row's entry, date and currency, the total and the count. */
  function Summary(g: seq<LogRow>): Line
    requires g != []
  {
    Line(g[0].logEntryId, Str(""), g[0].orderId, g[0].startTime, Total(g), g[0].currency, Int(|g|),
         LogEntryStatus(g[0].runTime, g[0].pid, g[0].alive))
  }

  /** The transaction line of one row. */
  function Entry(r: LogRow): Line
  {
    Line(r.reference, r.logEntryId, r.orderId, r.transactionDate, r.amount, r.currency, r.orderRecurringId,
         RecurringTransactionType(IntOf(r.txnType)))
  }

  /** The transaction lines of a run, in order. */
  function Entries(g: seq<LogRow>): (r: seq<Line>)
    ensures |r| == |g|
  {
    if g == [] then [] else Entries(g[..|g| - 1]) + [Entry(g[|g| - 1])]
  }

  /** The lines of runs: each run's summary followed by its transactions. */
  function Render(gs: seq<seq<LogRow>>): seq<Line>
    requires forall k | 0 <= k < |gs| :: gs[k] != []
  {
    if gs == [] then [] else Render(gs[..|gs| - 1]) + [Summary(gs[|gs| - 1])] + Entries(gs[|gs| - 1])
  }

  /** The rows of runs, in order. */
  function Flatten(gs: seq<seq<LogRow>>): seq<LogRow>
  {
    if gs == [] then [] else Flatten(gs[..|gs| - 1]) + gs[|gs| - 1]
  }

  /** The recurring rows, in order. */
  function RecurringRows(rows: seq<LogRow>): seq<LogRow>
  {
    if rows == [] then []
    else RecurringRows(rows[..|rows| - 1]) + (if Recurring(rows[|rows| - 1]) then [rows[|rows| - 1]] else [])
  }

  // ---------------------------------------------------------------------
  // properties of the grouping

  /** The runs hold exactly the recurring rows, in order: nothing else is skipped or repeated. */
  lemma {:induction false} GroupsPartition(rows: seq<LogRow>)
    ensures Flatten(Groups(rows)) == RecurringRows(rows)
  {
    if rows != [] {
      var init := rows[..|rows| - 1];
      var r := rows[|rows| - 1];
      GroupsPartition(init);
      var gs: seq<seq<LogRow>> := Groups(init);
      if Recurring(r) && gs != [] && r.logEntryId == gs[|gs| - 1][0].logEntryId {
        var last := gs[|gs| - 1];
        var gs' := gs[..|gs| - 1] + [last + [r]];
        assert gs'[..|gs'| - 1] == gs[..|gs| - 1];
        assert gs == gs[..|gs| - 1] + [last];
        assert Flatten(gs) == Flatten(gs[..|gs| - 1]) + last;
      } else if Recurring(r) {
        assert (gs + [[r]])[..|gs|] == gs;
      }
    }
  }

  /** Every row of a run is recurring and has the run's log entry. */
  lemma {:induction false} GroupsUniform(rows: seq<LogRow>)
    ensures forall k, j | 0 <= k < |Groups(rows)| && 0 <= j < |Groups(rows)[k]| ::
      Recurring(Groups(rows)[k][j]) && Groups(rows)[k][j].logEntryId == Groups(rows)[k][0].logEntryId
  {
    if rows != [] {
      GroupsUniform(rows[..|rows| - 1]);
    }
  }

  /** Neighbouring runs have different log entries: a new summary starts exactly where the entry changes. */
  lemma {:induction false} GroupsBreak(rows: seq<LogRow>)
    ensures forall k | 0 < k < |Groups(rows)| :: Groups(rows)[k][0].logEntryId != Groups(rows)[k - 1][0].logEntryId
  {
    if rows != [] {
      GroupsBreak(rows[..|rows| - 1]);
    }
  }

  /** A summary's amount is the total of its run and its counter the run's length. */
  lemma SummaryCounts(g: seq<LogRow>)
    requires g != []
    ensures Summary(g).amount == Total(g) && Summary(g).orderRecurringId == Int(|g|)
    ensures !Truthy(Summary(g).refLogEntryId)
  {
  }

  // ---------------------------------------------------------------------
  // the accumulation loop

  /** A summary line with one more transaction of `amount`. */
  function Counted(l: Line, amount: int): Line
  {
    l.(amount := l.amount + amount, orderRecurringId := Int(IntOf(l.orderRecurringId) + 1))
  }

  lemma SummarySnoc(g: seq<LogRow>, r: LogRow)
    requires g != []
    ensures Summary(g + [r]) == Counted(Summary(g), r.amount)
  {
    assert (g + [r])[..|g|] == g;
    assert (g + [r])[0] == g[0];
  }

  lemma EntriesSnoc(g: seq<LogRow>, r: LogRow)
    ensures Entries(g + [r]) == Entries(g) + [Entry(r)]
  {
    assert (g + [r])[..|g|] == g;
  }

  /** The index of the last run's summary in the rendered lines. */
  function LastSummary(gs: seq<seq<LogRow>>): nat
    requires gs != [] && forall k | 0 <= k < |gs| :: gs[k] != []
  {
    |Render(gs[..|gs| - 1])|
  }

  /** One more run appends its summary and its transactions. */
  lemma RenderSnoc(gs: seq<seq<LogRow>>, g: seq<LogRow>)
    requires forall k | 0 <= k < |gs| :: gs[k] != []
    requires g != []
    ensures forall k | 0 <= k < |gs + [g]| :: (gs + [g])[k] != []
    ensures Render(gs + [g]) == Render(gs) + [Summary(g)] + Entries(g)
  {
    assert (gs + [g])[..|gs|] == gs;
  }

  /** A summary line as it is opened, before its first transaction is counted. */
  function Opened(r: LogRow): Line
  {
    Line(r.logEntryId, Str(""), r.orderId, r.startTime, 0, r.currency, Int(0), LogEntryStatus(r.runTime, r.pid, r.alive))
  }

  /** Counting a row into an opened summary gives the summary of the one-row run. */
  lemma SummaryOne(r: LogRow)
    ensures Summary([r]) == Counted(Opened(r), r.amount)
    ensures Entries([r]) == [Entry(r)]
  {
    assert [r][..0] == [];
    assert Total([r]) == Total([]) + r.amount;
  }

  /** Extending the last run counts the row into its summary and appends the row's line. */
  lemma RenderExtend(init: seq<seq<LogRow>>, last: seq<LogRow>, r: LogRow)
    requires forall k | 0 <= k < |init| :: init[k] != []
    requires last != []
    ensures forall k | 0 <= k < |init + [last]| :: (init + [last])[k] != []
    ensures forall k | 0 <= k < |init + [last + [r]]| :: (init + [last + [r]])[k] != []
    ensures |Render(init)| < |Render(init + [last])|
    ensures Render(init + [last])[|Render(init)|] == Summary(last)
    ensures Render(init + [last + [r]]) ==
      (Render(init + [last]) + [Entry(r)])[|Render(init)| := Counted(Summary(last), r.amount)]
  {
    RenderSnoc(init, last);
    RenderSnoc(init, last + [r]);
    SummarySnoc(last, r);
    EntriesSnoc(last, r);
    Regroup(Render(init), Summary(last), Counted(Summary(last), r.amount), Entries(last), Entry(r));
  }

  lemma Regroup(a: seq<Line>, x: Line, x': Line, b: seq<Line>, y: Line)
    ensures (a + [x] + b + [y])[|a| := x'] == a + [x'] + (b + [y])
  {
  }

  /** Opening a run appends the opened summary and the row's line, then counts the row. */
  lemma RenderOpen(gs: seq<seq<LogRow>>, r: LogRow)
    requires forall k | 0 <= k < |gs| :: gs[k] != []
    ensures forall k | 0 <= k < |gs + [[r]]| :: (gs + [[r]])[k] != []
    ensures Render(gs + [[r]]) == (Render(gs) + [Opened(r)] + [Entry(r)])[|Render(gs)| := Counted(Opened(r), r.amount)]
  {
    RenderSnoc(gs, [r]);
    SummaryOne(r);
  }

  /** How one more row changes the runs. */
  lemma GroupsStep(rows: seq<LogRow>, i: nat)
    requires i < |rows|
    ensures var gs := Groups(rows[..i]);
      Groups(rows[..i + 1]) ==
        if !Recurring(rows[i]) then gs
        else if gs == [] || rows[i].logEntryId != gs[|gs| - 1][0].logEntryId then gs + [[rows[i]]]
        else gs[..|gs| - 1] + [gs[|gs| - 1] + [rows[i]]]
  {
    assert rows[..i + 1][..i] == rows[..i];
  }

  /**
   * The first loop of `getRecurringLog`: `$tmp`, built by opening a
   * summary whenever the log entry changes and counting each recurring
   * row into the open summary, is the rendering of the runs.
   */
  method Accumulate(rows: seq<LogRow>) returns (tmp: seq<Line>)
    ensures tmp == Render(Groups(rows))
  {
    tmp := [];
    var line: Option<nat> := None;
    var i := 0;
    while i < |rows|
      invariant 0 <= i <= |rows|
      invariant Accumulated(rows[..i], tmp, line)
    {
      TakeNext(rows, i);
      tmp, line := AccumulateRow(rows[..i], rows[i], tmp, line);
      i := i + 1;
    }
    assert rows[..i] == rows;
  }

  /** `$tmp` renders the runs of `rows`, and `line` is the position of the open summary, if any. */
  ghost predicate Accumulated(rows: seq<LogRow>, tmp: seq<Line>, line: Option<nat>)
  {
    tmp == Render(Groups(rows)) &&
    (line.None? <==> Groups(rows) == []) &&
    (line.Some? ==> line.value == LastSummary(Groups(rows)))
  }

  /** The loop body of `Accumulate`: one more row, counted into the open summary or opening a new one. */
  method AccumulateRow(rows: seq<LogRow>, r: LogRow, tmp: seq<Line>, line: Option<nat>) returns (tmp': seq<Line>, line': Option<nat>)
    requires Accumulated(rows, tmp, line)
    ensures Accumulated(rows + [r], tmp', line')
  {
    ghost var gs := Groups(rows);
    GroupsStep(rows + [r], |rows|);
    assert (rows + [r])[..|rows|] == rows;
    assert (rows + [r])[..|rows| + 1] == rows + [r];
    tmp', line' := tmp, line;
    if Recurring(r) {
      if line.None? || r.logEntryId != tmp[line.value].logEntryId {
        tmp', line' := OpenRun(gs, r, tmp);
      } else {
        tmp' := ExtendRun(gs, r, tmp, line.value);
      }
    }
  }

  /** A recurring row with a new log entry opens a summary line after everything rendered so far. */
  method OpenRun(ghost gs: seq<seq<LogRow>>, r: LogRow, tmp: seq<Line>) returns (tmp': seq<Line>, line': Option<nat>)
    requires forall k | 0 <= k < |gs| :: gs[k] != []
    requires tmp == Render(gs)
    ensures forall k | 0 <= k < |gs + [[r]]| :: (gs + [[r]])[k] != []
    ensures tmp' == Render(gs + [[r]])
    ensures line' == Some(LastSummary(gs + [[r]]))
  {
    RenderOpen(gs, r);
    assert (gs + [[r]])[..|gs|] == gs;
    line' := Some(|tmp|);
    tmp' := tmp + [Opened(r)] + [Entry(r)];
    tmp' := tmp'[|tmp| := Counted(tmp'[|tmp|], r.amount)];
  }

  /** A recurring row of the open log entry is counted into its summary and appended. */
  method ExtendRun(ghost gs: seq<seq<LogRow>>, r: LogRow, tmp: seq<Line>, line: nat) returns (tmp': seq<Line>)
    requires gs != [] && forall k | 0 <= k < |gs| :: gs[k] != []
    requires tmp == Render(gs) && line == LastSummary(gs)
    ensures var gs' := gs[..|gs| - 1] + [gs[|gs| - 1] + [r]];
      (forall k | 0 <= k < |gs'| :: gs'[k] != []) && tmp' == Render(gs') && line == LastSummary(gs')
  {
    assert gs == gs[..|gs| - 1] + [gs[|gs| - 1]];
    RenderExtend(gs[..|gs| - 1], gs[|gs| - 1], r);
    tmp' := tmp + [Entry(r)];
    tmp' := tmp'[line := Counted(tmp'[line], r.amount)];
  }

  // ---------------------------------------------------------------------
  // the report

  /** One line of the report as the page shows it. */
  datatype Shown =
    | SummaryShown(logEntryId: Value, date: Value, amount: int, currency: Value, transactions: Value, status: Status)
    | TransactionShown(logEntryId: Value, refLogEntryId: Value, orderId: Value, date: Value, amount: int,
                       currency: Value, orderRecurringId: Value, status: Status)

  /** The second loop's body: a line with an empty reference is a summary, any other a transaction. */
  function Show(l: Line): (s: Shown)
    ensures s.SummaryShown? <==> !Truthy(l.refLogEntryId)
  {
    if !Truthy(l.refLogEntryId) then SummaryShown(l.logEntryId, l.date, l.amount, l.currency, l.orderRecurringId, l.status)
    else TransactionShown(l.logEntryId, l.refLogEntryId, l.orderId, l.date, l.amount, l.currency, l.orderRecurringId, l.status)
  }

  /**
   * `getRecurringLog` with the transaction type corrected: the rendered
   * runs, each line shown as a summary or a transaction.
   */
  method GetRecurringLog(rows: seq<LogRow>) returns (result: seq<Shown>)
    ensures |result| == |Render(Groups(rows))|
    ensures forall k | 0 <= k < |result| :: result[k] == Show(Render(Groups(rows))[k])
  {
    var tmp := Accumulate(rows);
    result := [];
    var i := 0;
    while i < |tmp|
      invariant 0 <= i <= |tmp|
      invariant |result| == i
      invariant forall k | 0 <= k < i :: result[k] == Show(tmp[k])
    {
      result := result + [Show(tmp[i])];
      i := i + 1;
    }
  }
}
