/**
 * The plugin's database helper: the `<module>_transactions` table with its
 * upsert (`populateTransaction`, `addTransaction`, `updateTransaction`),
 * the escaping of the data it writes (`sanitizeData`), and the debug log
 * that receives a Java-style trace (`jTraceEx`) of every exception it
 * swallows (`logEx`).
 */
module DbHelper {
  import opened Php
  import opened Rows

  // ---------------------------------------------------------------------
  // escaping, as mysqli_real_escape_string does it and as MySQL reads it back

  /** The characters the escaper prefixes with a backslash, and the letter it writes for them. */
  function EscapeChar(c: char): string
  {
    if c == '\0' then "\\0"
    else if c == '\n' then "\\n"
    else if c == '\r' then "\\r"
    else if c == '\\' then "\\\\"
    else if c == '\'' then "\\'"
    else if c == '"' then "\\\""
    else if c == '\U{1A}' then "\\Z"
    else [c]
  }

  /** `$db->escape($s)`. */
  function Escape(s: string): (r: string)
    ensures |r| >= |s|
  {
    if s == [] then "" else EscapeChar(s[0]) + Escape(s[1..])
  }

  /** How MySQL reads back one escape sequence `\c`. */
  function UnescapeChar(c: char): char
  {
    if c == '0' then '\0'
    else if c == 'n' then '\n'
    else if c == 'r' then '\r'
    else if c == 'Z' then '\U{1A}'
    else c
  }

  /** How MySQL reads the text of a quoted string literal. */
  function Unescape(s: string): string
  {
    if s == [] then ""
    else if s[0] == '\\' && |s| >= 2 then [UnescapeChar(s[1])] + Unescape(s[2..])
    else [s[0]] + Unescape(s[1..])
  }

  /** A literal written by the escaper is read back as the original text. */
  lemma {:induction false} UnescapeEscape(s: string)
    ensures Unescape(Escape(s)) == s
  {
    if s != [] {
      UnescapeEscape(s[1..]);
      UnescapeOne(s[0], Escape(s[1..]));
      assert s == [s[0]] + s[1..];
    }
  }

  /** The escape of one character is read back as that character, whatever follows. */
  lemma UnescapeOne(c: char, rest: string)
    ensures Unescape(EscapeChar(c) + rest) == [c] + Unescape(rest)
  {
    var e := EscapeChar(c);
    if |e| == 2 {
      assert (e + rest)[2..] == rest;
    } else {
      assert (e + rest)[1..] == rest;
    }
  }

  /** Escaping never merges two texts. */
  lemma EscapeInjective(a: string, b: string)
    requires Escape(a) == Escape(b)
    ensures a == b
  {
    UnescapeEscape(a);
    UnescapeEscape(b);
  }

  predicate Plain(c: char)
  {
    EscapeChar(c) == [c]
  }

  lemma {:induction false} EscapePlain(s: string)
    requires forall k :: 0 <= k < |s| ==> Plain(s[k])
    ensures Escape(s) == s
  {
    if s != [] {
      EscapePlain(s[1..]);
    }
  }

  /** The table's column names pass through the escaper unchanged. */
  lemma EscapeColumnName(c: Column)
    ensures Escape(Name(c)) == Name(c)
  {
    if c == UniqueId || c == ReferenceId || c == OrderId {
      EscapeColumnNames1(c);
    } else if c == Type || c == Mode || c == Timestamp {
      EscapeColumnNames2(c);
    } else if c == Status || c == Message || c == TechnicalMessage {
      EscapeColumnNames3(c);
    } else {
      EscapeColumnNames4(c);
    }
  }

  /** The column names, a few at a time (each branch evaluates the escaper on a literal). */
  lemma EscapeColumnNames1(c: Column)
    requires c == UniqueId || c == ReferenceId || c == OrderId
    ensures Escape(Name(c)) == Name(c)
  {
    if c == UniqueId {
      EscapeName(Name(c));
    } else if c == ReferenceId {
      EscapeName(Name(c));
    } else {
      EscapeName(Name(c));
    }
  }

  lemma EscapeColumnNames2(c: Column)
    requires c == Type || c == Mode || c == Timestamp
    ensures Escape(Name(c)) == Name(c)
  {
    if c == Type {
      EscapeName(Name(c));
    } else if c == Mode {
      EscapeName(Name(c));
    } else {
      EscapeName(Name(c));
    }
  }

  lemma EscapeColumnNames3(c: Column)
    requires c == Status || c == Message || c == TechnicalMessage
    ensures Escape(Name(c)) == Name(c)
  {
    if c == Status {
      EscapeName(Name(c));
    } else if c == Message {
      EscapeName(Name(c));
    } else {
      EscapeName(Name(c));
    }
  }

  lemma EscapeColumnNames4(c: Column)
    requires c == TerminalToken || c == Amount || c == Currency
    ensures Escape(Name(c)) == Name(c)
  {
    if c == TerminalToken {
      EscapeName(Name(c));
    } else if c == Amount {
      EscapeName(Name(c));
    } else {
      EscapeName(Name(c));
    }
  }

  /** A name of lower-case letters and underscores passes through the escaper unchanged. */
  lemma EscapeName(s: string)
    requires forall k | 0 <= k < |s| :: 'a' <= s[k] <= 'z' || s[k] == '_'
    ensures Escape(s) == s
  {
    forall k | 0 <= k < |s|
      ensures Plain(s[k])
    {
      NameCharPlain(s[k]);
    }
    EscapePlain(s);
  }

  lemma NameCharPlain(c: char)
    requires 'a' <= c <= 'z' || c == '_'
    ensures Plain(c)
  {
  }

  /** What `$db->escape($value)` makes of a cell: strings escaped, `null` turned into ''. */
  function SanitizeValue(v: Value): Value
  {
    match v
    case Null => Str("")
    case Str(s) => Str(Escape(s))
    case _ => v
  }

  /** How the database reads back a value written as a literal. */
  function Decode(v: Value): Value
  {
    match v
    case Str(s) => Str(Unescape(s))
    case _ => v
  }

  /** The value a column ends up holding: the one written, except that `null` was written as ''. */
  function StoredValue(v: Value): Value
  {
    if v == Null then Str("") else v
  }

  lemma DecodeSanitize(v: Value)
    ensures Decode(SanitizeValue(v)) == StoredValue(v)
  {
    if v.Str? {
      UnescapeEscape(v.s);
    }
  }

  lemma DigitsPlain(s: string)
    requires forall k :: 0 <= k < |s| ==> IsDigit(s[k])
    ensures forall k :: 0 <= k < |s| ==> Plain(s[k])
  {
  }

  /** The text of a sanitized cell is the escaped text of the original, as PHP sends it. */
  lemma {:induction false} SanitizedText(v: Value)
    ensures Text(SanitizeValue(v)) == Escape(Text(v))
  {
    match v
    case Null =>
    case Str(_) =>
    case Int(i) =>
      var digits := NatToString(if i >= 0 then i else -i);
      DigitsPlain(digits);
      EscapePlain(IntToString(i));
    case Time(t) =>
      IsoTextPlain(t);
      EscapePlain(IsoText(t));
  }

  lemma IsoTextPlain(t: DateTime)
    ensures forall k :: 0 <= k < |IsoText(t)| ==> Plain(IsoText(t)[k])
  {
    var y, mo, d := Field4(t.year), Field2(t.month), Field2(t.day);
    var h, mi, s := Field2(t.hour), Field2(t.minute), Field2(t.second);
    DigitsPlain(y);
    DigitsPlain(mo);
    DigitsPlain(d);
    DigitsPlain(h);
    DigitsPlain(mi);
    DigitsPlain(s);
    assert IsoText(t) == y + "-" + mo + "-" + d + " " + h + ":" + mi + ":" + s;
  }

  /** The sanitized form of a data array, entry by entry. */
  function SanitizedData(d: Data): (r: Data)
    ensures |r| == |d|
    ensures forall i :: 0 <= i < |d| ==> r[i] == (d[i].0, SanitizeValue(d[i].1))
  {
    if d == [] then [] else [(d[0].0, SanitizeValue(d[0].1))] + SanitizedData(d[1..])
  }

  /** `$result[$key] = $value` on a PHP array: overwrite in place, or append. */
  function Put(d: Data, k: Column, v: Value): (r: Data)
    ensures (forall i :: 0 <= i < |d| ==> d[i].0 != k) ==> r == d + [(k, v)]
  {
    if d == [] then [(k, v)]
    else if d[0].0 == k then [(k, v)] + d[1..]
    else [d[0]] + Put(d[1..], k, v)
  }

  /**
   * `sanitizeData`: every key and every value goes through the escaper.
   * Escaping never merges two keys, so the result has one entry per entry
   * of the input, in the same order.
   */
  method SanitizeData(data: Data) returns (result: Data)
    requires DistinctKeys(data)
    ensures result == SanitizedData(data)
    ensures DistinctKeys(result)
  {
    result := [];
    var i := 0;
    while i < |data|
      invariant 0 <= i <= |data|
      invariant result == SanitizedData(data[..i])
    {
      var (key, value) := data[i];
      EscapeColumnName(key);
      assert forall j :: 0 <= j < |result| ==> result[j].0 != key by {
        forall j | 0 <= j < |result|
          ensures result[j].0 != key
        {
          assert result[j].0 == data[j].0;
        }
      }
      SanitizedSnoc(data, i);
      result := Put(result, key, SanitizeValue(value));
      i := i + 1;
    }
    assert data[..|data|] == data;
  }

  lemma SanitizedSnoc(d: Data, i: nat)
    requires i < |d|
    ensures SanitizedData(d[..i + 1]) == SanitizedData(d[..i]) + [(d[i].0, SanitizeValue(d[i].1))]
  {
  }

  /** The data array as the database reads its literals back. */
  function DecodedData(clean: Data): (r: Data)
    ensures |r| == |clean|
    ensures forall i :: 0 <= i < |clean| ==> r[i] == (clean[i].0, Decode(clean[i].1))
  {
    if clean == [] then [] else [(clean[0].0, Decode(clean[0].1))] + DecodedData(clean[1..])
  }

  /** The row the database holds for a sanitized data array. */
  function DecodedRow(clean: Data): (r: Row)
  {
    DataRow(DecodedData(clean))
  }

  /** Writing a data array through the escaper stores each value, with `null` stored as ''. */
  lemma StoredRow(data: Data)
    requires DistinctKeys(data)
    ensures DecodedRow(SanitizedData(data)).Keys == KeysOf(data)
    ensures forall i :: 0 <= i < |data| ==> DecodedRow(SanitizedData(data))[data[i].0] == StoredValue(data[i].1)
  {
    var decoded := DecodedData(SanitizedData(data));
    SameKeys(data, decoded);
    forall i | 0 <= i < |data|
      ensures DataRow(decoded)[data[i].0] == StoredValue(data[i].1)
    {
      assert decoded[i] == (data[i].0, Decode(SanitizeValue(data[i].1)));
      DecodeSanitize(data[i].1);
    }
  }

  /** Two data arrays naming the same columns at the same places name the same set, both without repeats or neither. */
  lemma SameKeys(a: Data, b: Data)
    requires |a| == |b| && forall i | 0 <= i < |a| :: a[i].0 == b[i].0
    ensures KeysOf(a) == KeysOf(b)
    ensures DistinctKeys(a) <==> DistinctKeys(b)
  {
    forall c
      ensures c in KeysOf(a) <==> c in KeysOf(b)
    {
      if c in KeysOf(a) {
        var i :| 0 <= i < |a| && a[i].0 == c;
        assert b[i].0 == c;
      }
      if c in KeysOf(b) {
        var i :| 0 <= i < |b| && b[i].0 == c;
        assert a[i].0 == c;
      }
    }
  }

  // ---------------------------------------------------------------------
  // exceptions and the Java-style trace

  /** One entry of `getTrace()`; each key may be absent. */
  datatype Frame = Frame(cls: Option<string>, func: Option<string>, file: Option<string>, line: Option<int>)

  /** A thrown exception: class, message, where it was raised, its trace and its cause. */
  datatype Exception = Exception(
    cls: string, message: string, file: string, line: Option<int>,
    trace: seq<Frame>, previous: Option<Exception>)

  /** `str_replace('\\', '.', $s)`. */
  function Dotted(s: string): (r: string)
    ensures |r| == |s| && '\\' !in r
  {
    if s == [] then "" else [if s[0] == '\\' then '.' else s[0]] + Dotted(s[1..])
  }

  /** `basename($path)` for a path without a trailing slash: the text after the last '/'. */
  function Basename(path: string): (r: string)
    ensures '/' !in r
    ensures |r| <= |path| && r == path[|path| - |r|..]
  {
    if '/' !in path then path
    else
      var i := IndexOf('/', path);
      Basename(path[i + 1..])
  }

  function LineText(line: Option<int>): string
  {
    if line.None? then "" else IntToString(line.value)
  }

  /** `"$file:$line"`, the key under which a location is remembered as seen. */
  function LocationKey(file: string, line: Option<int>): string
  {
    file + ":" + LineText(line)
  }

  /** The ` at Class.function(file:line)` line for a location and the frames left. */
  function AtLine(trace: seq<Frame>, file: string, line: Option<int>): string
  {
    var hasClass := |trace| > 0 && trace[0].cls.Some?;
    var hasFunction := |trace| > 0 && trace[0].func.Some?;
    " at " +
    (if hasClass then Dotted(trace[0].cls.value) else "") +
    (if hasClass && hasFunction then "." else "") +
    (if hasFunction then Dotted(trace[0].func.value) else "(main)") +
    "(" + (if line.None? then file else Basename(file)) + (if line.None? then "" else ":") + LineText(line) + ")"
  }

  /** The location the next frame names; a missing file is 'Unknown Source', a missing or zero line none. */
  function NextFile(f: Frame): string
  {
    if f.file.Some? then f.file.value else "Unknown Source"
  }

  function NextLine(f: Frame): Option<int>
  {
    if f.file.Some? && f.line.Some? && f.line.value != 0 then f.line else None
  }

  /** The lines of one section after its header, and the seen list afterwards. */
  datatype Walked = Walked(lines: seq<string>, seen: seq<string>)

  /** The frame walk of one section of `jTraceEx`. */
  function Walk(trace: seq<Frame>, file: string, line: Option<int>, seen: seq<string>): (w: Walked)
    ensures |w.lines| >= 1
    decreases |trace|
  {
    var current := LocationKey(file, line);
    if current in seen then
      Walked([" ... " + IntToString(|trace| + 1) + " more"], seen)
    else if trace == [] then
      Walked([AtLine(trace, file, line)], seen + [current])
    else
      var rest := Walk(trace[1..], NextFile(trace[0]), NextLine(trace[0]), seen + [current]);
      Walked([AtLine(trace, file, line)] + rest.lines, rest.seen)
  }

  /** The first line of a section: "Class: message", after "Caused by: " for a cause. */
  function Header(e: Exception, seen: seq<string>): string
  {
    (if seen == [] then "" else "Caused by: ") + e.cls + ": " + e.message
  }

  /** The text `jTraceEx($e, $seen)` returns. */
  function TraceText(e: Exception, seen: seq<string>): string
    decreases e
  {
    var w := Walk(e.trace, e.file, e.line, seen);
    var text := Implode('\n', [Header(e, seen)] + w.lines);
    match e.previous
    case None => text
    case Some(p) => text + "\n" + TraceText(p, w.seen)
  }

  /** `jTraceEx`: walks the trace with `array_shift`, then recurses into the cause. */
  method JTraceEx(e: Exception, seen0: seq<string>) returns (r: string)
    ensures r == TraceText(e, seen0)
    decreases e
  {
    var result := [Header(e, seen0)];
    var seen := seen0;
    var trace := e.trace;
    var file := e.file;
    var line := e.line;
    ghost var total := Walk(e.trace, e.file, e.line, seen0);
    while true
      invariant result + Walk(trace, file, line, seen).lines == [Header(e, seen0)] + total.lines
      invariant Walk(trace, file, line, seen).seen == total.seen
      decreases |trace|
    {
      var current := LocationKey(file, line);
      if current in seen {
        result := result + [" ... " + IntToString(|trace| + 1) + " more"];
        break;
      }
      result := result + [AtLine(trace, file, line)];
      seen := seen + [current];
      if |trace| == 0 {
        break;
      }
      file := NextFile(trace[0]);
      line := NextLine(trace[0]);
      trace := trace[1..];
    }
    r := Implode('\n', result);
    if e.previous.Some? {
      var cause := JTraceEx(e.previous.value, seen);
      r := r + "\n" + cause;
    }
  }

  /** A trace starts with "Class: message". */
  lemma TraceStartsWithHeader(e: Exception)
    ensures Header(e, []) == e.cls + ": " + e.message
    ensures e.cls + ": " + e.message <= TraceText(e, [])
  {
    var w := Walk(e.trace, e.file, e.line, []);
    ImplodeStartsWithFirst('\n', [Header(e, [])] + w.lines);
  }

  lemma ImplodeStartsWithFirst(sep: char, parts: seq<string>)
    requires parts != []
    ensures parts[0] <= Implode(sep, parts)
  {
  }

  /** The walk only adds to the seen list, and always adds the location it starts from when that is new. */
  lemma {:induction false} WalkGrowsSeen(trace: seq<Frame>, file: string, line: Option<int>, seen: seq<string>)
    ensures seen <= Walk(trace, file, line, seen).seen
    ensures LocationKey(file, line) !in seen ==> LocationKey(file, line) in Walk(trace, file, line, seen).seen
    decreases |trace|
  {
    var current := LocationKey(file, line);
    if current !in seen && trace != [] {
      var rest := Walk(trace[1..], NextFile(trace[0]), NextLine(trace[0]), seen + [current]);
      WalkGrowsSeen(trace[1..], NextFile(trace[0]), NextLine(trace[0]), seen + [current]);
      assert rest.seen[|seen|] == (seen + [current])[|seen|] == current;
    }
  }

  /** A cause is introduced as "Caused by: Class: message" on a line of its own. */
  lemma CauseIsIntroduced(e: Exception, seen: seq<string>)
    requires e.previous.Some?
    ensures var p := e.previous.value;
      Contains(TraceText(e, seen), "\nCaused by: " + p.cls + ": " + p.message)
  {
    var p := e.previous.value;
    var w := Walk(e.trace, e.file, e.line, seen);
    WalkGrowsSeen(e.trace, e.file, e.line, seen);
    CauseStartsWithHeader(p, w.seen);
    NewlineThenCause(Implode('\n', [Header(e, seen)] + w.lines), TraceText(p, w.seen), p.cls, p.message);
  }

  /** A cause's section starts with its header. */
  lemma CauseStartsWithHeader(p: Exception, seen: seq<string>)
    requires seen != []
    ensures "Caused by: " + p.cls + ": " + p.message <= TraceText(p, seen)
  {
    var w := Walk(p.trace, p.file, p.line, seen);
    ImplodeStartsWithFirst('\n', [Header(p, seen)] + w.lines);
  }

  lemma NewlineThenCause(a: string, b: string, cls: string, message: string)
    requires "Caused by: " + cls + ": " + message <= b
    ensures Contains(a + "\n" + b, "\nCaused by: " + cls + ": " + message)
  {
    var s := a + "\n" + b;
    var needle := "\nCaused by: " + cls + ": " + message;
    assert needle == "\n" + ("Caused by: " + cls + ": " + message);
    assert s[|a|..|a| + |needle|] == needle;
    assert OccursAt(s, needle, |a|);
  }

  /** The seen list never holds a location twice: no `at` line of one trace repeats a location. */
  lemma {:induction false} WalkSeenDistinct(trace: seq<Frame>, file: string, line: Option<int>, seen: seq<string>)
    requires Distinct(seen)
    ensures Distinct(Walk(trace, file, line, seen).seen)
    decreases |trace|
  {
    var current := LocationKey(file, line);
    if current !in seen {
      assert Distinct(seen + [current]);
      if trace != [] {
        WalkSeenDistinct(trace[1..], NextFile(trace[0]), NextLine(trace[0]), seen + [current]);
      }
    }
  }

  /** A section whose first location was already seen is cut short with " ... N more". */
  lemma SeenLocationEndsSection(e: Exception, seen: seq<string>)
    requires LocationKey(e.file, e.line) in seen
    ensures Walk(e.trace, e.file, e.line, seen).lines == [" ... " + IntToString(|e.trace| + 1) + " more"]
  {
  }

  // ---------------------------------------------------------------------
  // the table

  /** The first key of a data array that names no column of the table, if any. */
  function UnknownColumn(d: Data, columns: set<Column>): (r: Option<Column>)
    ensures r.None? <==> KeysOf(d) <= columns
    ensures r.Some? ==> r.value in KeysOf(d) && r.value !in columns
  {
    if d == [] then None
    else if d[0].0 !in columns then Some(d[0].0)
    else
      var rest := UnknownColumn(d[1..], columns);
      assert KeysOf(d) == {d[0].0} + KeysOf(d[1..]) by {
        forall c ensures c in KeysOf(d) <==> c == d[0].0 || c in KeysOf(d[1..]) {
          if c in KeysOf(d) && c != d[0].0 {
            var i :| 0 <= i < |d| && d[i].0 == c;
            assert d[1..][i - 1].0 == c;
          }
        }
      }
      rest
  }

  /**
   * A table as the helper keeps it: the ids in insertion order, without
   * repeats, naming exactly the rows; each row filed under the text of its
   * own `unique_id` and holding only columns of the table.
   */
  ghost predicate Table(columns: set<Column>, ids: seq<string>, rows: map<string, Row>)
  {
    Distinct(ids) &&
    (forall id :: id in rows <==> id in ids) &&
    (forall id | id in rows :: UniqueId in rows[id] && Text(rows[id][UniqueId]) == id && rows[id].Keys <= columns)
  }

  /** Inserting a row filed under its own new id keeps the table well formed. */
  lemma TableInsert(columns: set<Column>, ids: seq<string>, rows: map<string, Row>, id: string, row: Row)
    requires Table(columns, ids, rows) && id !in rows
    requires UniqueId in row && Text(row[UniqueId]) == id && row.Keys <= columns
    ensures Table(columns, ids + [id], rows[id := row])
  {
    assert id !in ids;
  }

  /** So does replacing a row by one filed under the same id. */
  lemma TableUpdate(columns: set<Column>, ids: seq<string>, rows: map<string, Row>, id: string, row: Row)
    requires Table(columns, ids, rows) && id in rows
    requires UniqueId in row && Text(row[UniqueId]) == id && row.Keys <= columns
    ensures Table(columns, ids, rows[id := row])
  {
  }

  /** The error the database raises for a statement naming a column the table lacks. */
  function UnknownColumnError(c: Column): Exception
  {
    Exception("Exception", "Unknown column '" + Name(c) + "' in 'field list'", "", None, [], None)
  }

  /**
   * `DbHelper` bound to one module: the rows of `<module>_transactions`
   * (keyed by `unique_id`, with the order in which they were inserted), the
   * table's columns, the module's `_debug` setting and the module's log file.
   */
  class DbHelper {
    var ids: seq<string>
    var rows: map<string, Row>
    const columns: set<Column>
    const debug: bool
    var log: seq<string>

    /** One row per `unique_id`, filed under the text of its own `unique_id`, holding only columns of the table. */
    ghost predicate Valid()
      reads this`ids, this`rows
    {
      UniqueId in columns && Table(columns, ids, rows)
    }

    constructor(columns: set<Column>, debug: bool)
      requires UniqueId in columns
      ensures Valid() && ids == [] && rows == map[] && log == []
      ensures this.columns == columns && this.debug == debug
    {
      ids := [];
      rows := map[];
      this.columns := columns;
      this.debug := debug;
      log := [];
    }

    /** What `logEx` adds to the log for an exception. */
    function LogLines(e: Exception): seq<string>
    {
      if debug then [TraceText(e, [])] else []
    }

    /** `logEx`: the trace goes to the log only when debugging is enabled. */
    method LogEx(e: Exception)
      modifies this`log
      ensures log == old(log) + LogLines(e)
    {
      if debug {
        var text := JTraceEx(e, []);
        log := log + [text];
      }
    }

    /**
     * The error a write of `d` meets: a column the table lacks, or else
     * `failure`, the error (if any) the database raises on its own.
     */
    function WriteError(d: Data, failure: Option<Exception>): Option<Exception>
    {
      match UnknownColumn(d, columns)
      case Some(c) => Some(UnknownColumnError(c))
      case None => failure
    }

    /** `addTransaction`: INSERT the sanitized row; a database error is logged and nothing is written. */
    method AddTransaction(clean: Data, failure: Option<Exception>)
      requires Valid() && DistinctKeys(clean)
      requires Text(Decode(Lookup(clean, UniqueId))) !in rows
      modifies this`ids, this`rows, this`log
      ensures Valid()
      ensures WriteError(clean, failure).Some? ==>
        ids == old(ids) && rows == old(rows) && log == old(log) + LogLines(WriteError(clean, failure).value)
      ensures WriteError(clean, failure).None? ==>
        log == old(log) && ids == old(ids) + [Text(Decode(Lookup(clean, UniqueId)))] &&
        rows == old(rows)[Text(Decode(Lookup(clean, UniqueId))) := InsertedRow(clean)]
    {
      var error := WriteError(clean, failure);
      if error.Some? {
        LogEx(error.value);
        return;
      }
      var id := Text(Decode(Lookup(clean, UniqueId)));
      var row := InsertedRow(clean);
      TableInsert(columns, ids, rows, id, row);
      rows := rows[id := row];
      ids := ids + [id];
    }

    /** The row an INSERT creates; a missing `unique_id` takes the column default ''. */
    static function InsertedRow(clean: Data): (r: Row)
      ensures UniqueId in r && Text(r[UniqueId]) == Text(Decode(Lookup(clean, UniqueId)))
      ensures r.Keys == KeysOf(clean) + {UniqueId}
    {
      DecodedLookup(clean, UniqueId);
      DecodedKeys(clean);
      Overlay(map[UniqueId := Str("")], DecodedRow(clean))
    }

    /** `updateTransaction`: SET exactly the supplied columns of the row with that `unique_id`. */
    method UpdateTransaction(clean: Data, failure: Option<Exception>)
      requires Valid() && DistinctKeys(clean)
      requires Text(Decode(Lookup(clean, UniqueId))) in rows
      modifies this`rows, this`log
      ensures Valid()
      ensures WriteError(clean, failure).Some? ==>
        rows == old(rows) && log == old(log) + LogLines(WriteError(clean, failure).value)
      ensures WriteError(clean, failure).None? ==>
        log == old(log) &&
        rows == old(rows)[Text(Decode(Lookup(clean, UniqueId))) :=
          Overlay(old(rows)[Text(Decode(Lookup(clean, UniqueId)))], DecodedRow(clean))]
    {
      var error := WriteError(clean, failure);
      if error.Some? {
        LogEx(error.value);
        return;
      }
      var id := Text(Decode(Lookup(clean, UniqueId)));
      DecodedLookup(clean, UniqueId);
      DecodedKeys(clean);
      TableUpdate(columns, ids, rows, id, Overlay(rows[id], DecodedRow(clean)));
      rows := rows[id := Overlay(rows[id], DecodedRow(clean))];
    }

    /** The ledger this helper holds now, as a value. */
    function State(): Ledger
      reads this
    {
      Ledger(ids, rows, log)
    }

    /**
     * `populateTransaction`: sanitize, then UPDATE the row with that
     * `unique_id` if there is one and INSERT otherwise. A database error is
     * caught and logged; it never reaches the caller.
     */
    method PopulateTransaction(data: Data, failure: Option<Exception>)
      requires Valid() && DistinctKeys(data)
      modifies this`ids, this`rows, this`log
      ensures Valid()
      ensures State() == Write(this, old(State()), data, failure)
    {
      var clean := SanitizeData(data);
      ghost var id := RowText(data);
      assert Text(Decode(Lookup(clean, UniqueId))) == id by {
        LookupSanitized(data, UniqueId);
        DecodeSanitize(Lookup(data, UniqueId));
      }
      assert WriteError(clean, failure) == WriteError(data, failure) by {
        SanitizedUnknown(data, columns);
      }
      if Text(Decode(Lookup(clean, UniqueId))) in rows {
        UpdateFiled(data, clean, failure);
      } else {
        AddFiled(data, clean, failure);
      }
    }

    /** The UPDATE branch of `populateTransaction`, on the ledger. */
    method UpdateFiled(ghost data: Data, clean: Data, failure: Option<Exception>)
      requires Valid() && DistinctKeys(data) && clean == SanitizedData(data) && DistinctKeys(clean)
      requires Text(Decode(Lookup(clean, UniqueId))) == RowText(data) && RowText(data) in rows
      requires WriteError(clean, failure) == WriteError(data, failure)
      modifies this`rows, this`log
      ensures Valid()
      ensures State() == Write(this, old(State()), data, failure)
    {
      UpdateTransaction(clean, failure);
      WriteCases(this, old(State()), data, failure);
      if WriteError(data, failure).None? {
        UpsertUpdates(old(rows), data);
      }
    }

    /** The INSERT branch of `populateTransaction`, on the ledger. */
    method AddFiled(ghost data: Data, clean: Data, failure: Option<Exception>)
      requires Valid() && DistinctKeys(data) && clean == SanitizedData(data) && DistinctKeys(clean)
      requires Text(Decode(Lookup(clean, UniqueId))) == RowText(data) && RowText(data) !in rows
      requires WriteError(clean, failure) == WriteError(data, failure)
      modifies this`ids, this`rows, this`log
      ensures Valid()
      ensures State() == Write(this, old(State()), data, failure)
    {
      AddTransaction(clean, failure);
      if WriteError(data, failure).None? {
        UpsertInserts(old(rows), data);
      }
    }
  }

  lemma {:induction false} DecodedKeys(clean: Data)
    ensures DecodedRow(clean).Keys == KeysOf(clean)
  {
    var d := DecodedData(clean);
    forall c ensures c in KeysOf(d) <==> c in KeysOf(clean) {
      if c in KeysOf(clean) {
        var i :| 0 <= i < |clean| && clean[i].0 == c;
        assert d[i].0 == c;
      }
      if c in KeysOf(d) {
        var i :| 0 <= i < |d| && d[i].0 == c;
        assert clean[i].0 == c;
      }
    }
  }

  lemma {:induction false} SanitizedUnknown(d: Data, columns: set<Column>)
    ensures UnknownColumn(SanitizedData(d), columns) == UnknownColumn(d, columns)
  {
    if d != [] {
      assert SanitizedData(d)[1..] == SanitizedData(d[1..]);
      SanitizedUnknown(d[1..], columns);
    }
  }

  lemma {:induction false} DecodedLookup(clean: Data, c: Column)
    ensures c in DecodedRow(clean) ==> DecodedRow(clean)[c] == Decode(Lookup(clean, c))
    ensures c !in DecodedRow(clean) ==> Lookup(clean, c) == Null
  {
    if clean != [] {
      var n := |clean| - 1;
      DecodedLookup(clean[..n], c);
      DecodedRowSnoc(clean);
      LookupLast(clean, c);
      UpdatedLookup(DecodedRow(clean), DecodedRow(clean[..n]), clean[n].0, clean[n].1, c, Lookup(clean, c), Lookup(clean[..n], c));
    }
  }

  /** Setting one key in a decoded row keeps the row in step with the lookup in the data it came from. */
  lemma UpdatedLookup(after: Row, before: Row, k: Column, v: Value, c: Column, now: Value, was: Value)
    requires after == before[k := Decode(v)]
    requires now == if k == c then v else was
    requires c in before ==> before[c] == Decode(was)
    requires c !in before ==> was == Null
    ensures c in after ==> after[c] == Decode(now)
    ensures c !in after ==> now == Null
  {
  }

  /** The lookup in data with one more entry: that entry when it has the key, else the lookup before it. */
  lemma LookupLast(d: Data, c: Column)
    requires d != []
    ensures Lookup(d, c) == if d[|d| - 1].0 == c then d[|d| - 1].1 else Lookup(d[..|d| - 1], c)
  {
  }

  lemma DecodedRowSnoc(clean: Data)
    requires clean != []
    ensures DecodedRow(clean) == DecodedRow(clean[..|clean| - 1])[clean[|clean| - 1].0 := Decode(clean[|clean| - 1].1)]
  {
    var n := |clean|;
    var d := DecodedData(clean);
    assert d[..n - 1] == DecodedData(clean[..n - 1]);
  }

  lemma {:induction false} LookupSanitized(d: Data, c: Column)
    ensures Lookup(SanitizedData(d), c) == (if Lookup(d, c) == Null && c !in KeysOf(d) then Null else SanitizeValue(Lookup(d, c)))
  {
    if d != [] {
      var n := |d|;
      assert SanitizedData(d)[..n - 1] == SanitizedData(d[..n - 1]);
      LookupSanitized(d[..n - 1], c);
      LookupLast(d, c);
      LookupLast(SanitizedData(d), c);
      KeysOfLast(d);
    }
  }

  /** The row the table holds for `unique_id` = `id`, if any. */
  function RowText(d: Data): string
  {
    Text(Lookup(d, UniqueId))
  }

  /**
   * What a successful `populateTransaction(data)` does to the table: the
   * row filed under the data's `unique_id` is there and every other row is
   * untouched.
   */
  lemma UpsertOthers(rows: map<string, Row>, data: Data)
    requires DistinctKeys(data)
    ensures Upsert(rows, data).Keys == rows.Keys + {RowText(data)}
    ensures forall other | other in rows && other != RowText(data) :: Upsert(rows, data)[other] == rows[other]
  {
  }

  /** After the upsert, the row holds every supplied value, with `null` stored as ''. */
  lemma UpsertSupplied(rows: map<string, Row>, data: Data)
    requires DistinctKeys(data)
    ensures forall i | 0 <= i < |data| :: Upsert(rows, data)[RowText(data)][data[i].0] == StoredValue(data[i].1)
  {
    StoredRow(data);
  }

  /** The `i`-th entry of a filed data array is in the row it was filed as. */
  lemma Filed(rows: map<string, Row>, d: Data, i: nat)
    requires DistinctKeys(d) && i < |d|
    ensures RowText(d) in Upsert(rows, d) && Get(Upsert(rows, d)[RowText(d)], d[i].0) == StoredValue(d[i].1)
  {
    UpsertSupplied(rows, d);
  }

  /** A column the data does not name keeps what the row held (nothing, for a new row). */
  lemma UpsertUnsupplied(rows: map<string, Row>, data: Data, c: Column)
    requires DistinctKeys(data) && c !in KeysOf(data) && c != UniqueId
    ensures c in Upsert(rows, data)[RowText(data)] <==> RowText(data) in rows && c in rows[RowText(data)]
    ensures c in Upsert(rows, data)[RowText(data)] ==> Upsert(rows, data)[RowText(data)][c] == rows[RowText(data)][c]
  {
    StoredRow(data);
    assert c !in DecodedRow(SanitizedData(data));
  }

  /** Upserting the same data twice leaves the table as one upsert does. */
  lemma UpsertIdempotent(rows: map<string, Row>, data: Data)
    requires DistinctKeys(data)
    ensures Upsert(Upsert(rows, data), data) == Upsert(rows, data)
  {
    UpsertAgain(rows, Upsert(rows, data), data);
  }

  /** The table after `populateTransaction(data)` succeeds. */
  function Upsert(rows: map<string, Row>, data: Data): map<string, Row>
    requires DistinctKeys(data)
  {
    var id := RowText(data);
    var base := if id in rows then rows[id] else map[UniqueId := Str("")];
    rows[id := Overlay(base, DecodedRow(SanitizedData(data)))]
  }

  /** The two outcomes of a write on a ledger value, spelled out. */
  lemma WriteCases(db: DbHelper, l: Ledger, data: Data, failure: Option<Exception>)
    requires DistinctKeys(data)
    ensures db.WriteError(data, failure).Some? ==>
      Write(db, l, data, failure) == Ledger(l.ids, l.rows, l.log + db.LogLines(db.WriteError(data, failure).value))
    ensures db.WriteError(data, failure).None? && RowText(data) in l.rows ==>
      Write(db, l, data, failure) == Ledger(l.ids, Upsert(l.rows, data), l.log)
  {
  }

  /** On a row that exists, the upsert is the UPDATE of its supplied columns. */
  lemma UpsertUpdates(rows: map<string, Row>, data: Data)
    requires DistinctKeys(data) && RowText(data) in rows
    ensures Upsert(rows, data) == rows[RowText(data) := Overlay(rows[RowText(data)], DecodedRow(SanitizedData(data)))]
  {
  }

  /** Otherwise it is the INSERT of the row. */
  lemma UpsertInserts(rows: map<string, Row>, data: Data)
    requires DistinctKeys(data) && RowText(data) !in rows
    ensures Upsert(rows, data) == rows[RowText(data) := DbHelper.InsertedRow(SanitizedData(data))]
  {
  }

  /** A ledger as a value: the ids in insertion order, the rows, the log. */
  datatype Ledger = Ledger(ids: seq<string>, rows: map<string, Row>, log: seq<string>)

  /**
   * `populateTransaction(data)` on a ledger value: a write the database
   * refuses leaves ids and rows as they were and logs the error; otherwise
   * the row is upserted and a new id appended.
   */
  function Write(db: DbHelper, l: Ledger, data: Data, failure: Option<Exception>): (r: Ledger)
    requires DistinctKeys(data)
    ensures db.WriteError(data, failure).Some? ==> r.rows == l.rows && r.ids == l.ids
    ensures db.WriteError(data, failure).None? ==> r.rows == Upsert(l.rows, data) && r.log == l.log
  {
    match db.WriteError(data, failure)
    case Some(e) => Ledger(l.ids, l.rows, l.log + db.LogLines(e))
    case None =>
      Ledger(l.ids + (if RowText(data) in l.rows then [] else [RowText(data)]), Upsert(l.rows, data), l.log)
  }

  /** A write leaves every column its data does not name as the row held it. */
  lemma WriteKeepsUnnamed(db: DbHelper, l: Ledger, data: Data, failure: Option<Exception>, c: Column)
    requires DistinctKeys(data) && c !in KeysOf(data) && c != UniqueId && RowText(data) in l.rows
    ensures var after := Write(db, l, data, failure).rows[RowText(data)];
      (c in after <==> c in l.rows[RowText(data)]) && (c in after ==> after[c] == l.rows[RowText(data)][c])
  {
    if db.WriteError(data, failure).None? {
      UpsertUnsupplied(l.rows, data, c);
    }
  }

  /** An upsert of data whose row already holds what that upsert made of it changes nothing. */
  lemma UpsertAgain(prev: map<string, Row>, rows: map<string, Row>, data: Data)
    requires DistinctKeys(data) && RowText(data) in rows
    requires rows[RowText(data)] == Upsert(prev, data)[RowText(data)]
    ensures Upsert(rows, data) == rows
  {
    var id := RowText(data);
    var stored := DecodedRow(SanitizedData(data));
    var base := if id in prev then prev[id] else map[UniqueId := Str("")];
    assert rows[id] == Overlay(base, stored);
    OverlayTwice(base, stored);
    UpsertUpdates(rows, data);
    SameUpdate(rows, id);
  }

  /** Writing a key's own value back changes nothing. */
  lemma SameUpdate<K, V>(m: map<K, V>, k: K)
    requires k in m
    ensures m[k := m[k]] == m
  {
  }

  /** On a table that has every column the data names, writing the same data twice is writing it once. */
  lemma WriteAgain(db: DbHelper, l1: Ledger, l2: Ledger, d: Data)
    requires DistinctKeys(d) && KeysOf(d) <= db.columns
    requires l2 == Write(db, l1, d, None)
    ensures Write(db, l2, d, None) == l2
  {
    assert RowText(d) in l2.rows;
    WriteOver(db, l1, l2, d);
  }

  /** Writing data over a row that already holds what writing it on another ledger made of it changes nothing. */
  lemma WriteOver(db: DbHelper, l: Ledger, l2: Ledger, d: Data)
    requires DistinctKeys(d) && KeysOf(d) <= db.columns
    requires RowText(d) in l2.rows && RowText(d) in Write(db, l, d, None).rows
    requires l2.rows[RowText(d)] == Write(db, l, d, None).rows[RowText(d)]
    ensures Write(db, l2, d, None) == l2
  {
    assert db.WriteError(d, None).None?;
    UpsertAgain(l.rows, l2.rows, d);
  }
}
