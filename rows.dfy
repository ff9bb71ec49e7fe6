/**
 * The values held in a row of the plugin's transaction tables and the PHP
 * conversions the plugin applies to them (string cast, truthiness,
 * `(int)`), plus the two text forms of a timestamp: the table's
 * `Y-m-d H:i:s` form and the `H:i:s m/d/Y` form of the admin listing.
 */
module Rows {
  import opened Php

  /** A calendar date and time of day, as a DATETIME column holds it. */
  datatype DateTime = DateTime(year: nat, month: nat, day: nat, hour: nat, minute: nat, second: nat)
  {
    /** The ranges a DATETIME column accepts (four-digit years). */
    predicate Valid()
    {
      1000 <= year <= 9999 && 1 <= month <= 12 && 1 <= day <= 31 &&
      hour < 24 && minute < 60 && second < 60
    }
  }

  /** Chronological order of two date-times. */
  predicate Before(a: DateTime, b: DateTime)
  {
    if a.year != b.year then a.year < b.year
    else if a.month != b.month then a.month < b.month
    else if a.day != b.day then a.day < b.day
    else if a.hour != b.hour then a.hour < b.hour
    else if a.minute != b.minute then a.minute < b.minute
    else a.second <= b.second
  }

  /**
   * One cell of a row. Amounts are `Int` in the minor unit of their column
   * (1/10000 for DECIMAL(15,4), 1/100 for DECIMAL(10,2)); a column a row
   * does not hold stands for its SQL default.
   */
  datatype Value = Null | Str(s: string) | Int(i: int) | Time(t: DateTime)

  /** The columns of the `<module>_transactions` tables. */
  datatype Column =
    | UniqueId | ReferenceId | OrderId | Type | Mode | Timestamp | Status
    | Message | TechnicalMessage | TerminalToken | Amount | Currency

  /** The column's name in SQL. */
  function Name(c: Column): string
  {
    match c
    case UniqueId => "unique_id"
    case ReferenceId => "reference_id"
    case OrderId => "order_id"
    case Type => "type"
    case Mode => "mode"
    case Timestamp => "timestamp"
    case Status => "status"
    case Message => "message"
    case TechnicalMessage => "technical_message"
    case TerminalToken => "terminal_token"
    case Amount => "amount"
    case Currency => "currency"
  }

  /** A stored row: only the columns it was given. */
  type Row = map<Column, Value>

  /** A PHP array of column => value, in insertion order. */
  type Data = seq<(Column, Value)>

  /** The keys of a PHP array are distinct. */
  predicate DistinctKeys(d: Data)
  {
    forall i, j :: 0 <= i < j < |d| ==> d[i].0 != d[j].0
  }

  /** The columns a data array names. */
  function KeysOf(d: Data): (r: set<Column>)
    ensures forall c :: c in r <==> exists i :: 0 <= i < |d| && d[i].0 == c
  {
    if d == [] then {} else KeysOf(d[..|d| - 1]) + {d[|d| - 1].0}
  }

  /** The data array as a row; a later entry for the same key wins, as in PHP. */
  function DataRow(d: Data): (r: Row)
    ensures r.Keys == KeysOf(d)
    ensures DistinctKeys(d) ==> forall i :: 0 <= i < |d| ==> r[d[i].0] == d[i].1
  {
    if d == [] then map[]
    else
      var prev := DataRow(d[..|d| - 1]);
      DataRowStep(d, prev);
      prev[d[|d| - 1].0 := d[|d| - 1].1]
  }

  /** The last entry of a data array, set on the row of the entries before it. */
  lemma DataRowStep(d: Data, prev: Row)
    requires d != []
    requires prev.Keys == KeysOf(d[..|d| - 1])
    requires DistinctKeys(d[..|d| - 1]) ==> forall i :: 0 <= i < |d| - 1 ==> prev[d[i].0] == d[i].1
    ensures prev[d[|d| - 1].0 := d[|d| - 1].1].Keys == KeysOf(d)
    ensures DistinctKeys(d) ==> forall i :: 0 <= i < |d| ==> prev[d[|d| - 1].0 := d[|d| - 1].1][d[i].0] == d[i].1
  {
    KeysOfLast(d);
    if DistinctKeys(d) {
      DistinctInit(d);
      var r := prev[d[|d| - 1].0 := d[|d| - 1].1];
      forall i | 0 <= i < |d| ensures r[d[i].0] == d[i].1 {
        if i < |d| - 1 {
          assert d[i].0 != d[|d| - 1].0;
        }
      }
    }
  }

  /** The keys of a data array: those of all entries but the last, and the last one's. */
  lemma KeysOfLast(d: Data)
    requires d != []
    ensures KeysOf(d) == KeysOf(d[..|d| - 1]) + {d[|d| - 1].0}
  {
  }

  /** Dropping the last entry keeps the keys distinct, and none of them is the last one's. */
  lemma DistinctInit(d: Data)
    requires d != [] && DistinctKeys(d)
    ensures DistinctKeys(d[..|d| - 1])
    ensures forall i :: 0 <= i < |d| - 1 ==> d[i].0 != d[|d| - 1].0
  {
    var init := d[..|d| - 1];
    forall i, j | 0 <= i < j < |init| ensures init[i].0 != init[j].0 {
      assert init[i] == d[i] && init[j] == d[j];
    }
  }

  /** A row after an UPDATE sets the columns of `top`: those take `top`'s values, the rest keep theirs. */
  function Overlay(base: Row, top: Row): (r: Row)
    ensures r.Keys == base.Keys + top.Keys
    ensures forall c | c in top :: r[c] == top[c]
    ensures forall c | c in base && c !in top :: r[c] == base[c]
  {
    base + top
  }

  /** Setting the same columns a second time changes nothing. */
  lemma OverlayTwice(base: Row, top: Row)
    ensures Overlay(Overlay(base, top), top) == Overlay(base, top)
  {
    var once := Overlay(base, top);
    assert forall c | c in once :: Overlay(once, top)[c] == once[c];
  }

  /** `$row[$col] ?? null`. */
  function Get(row: Row, col: Column): Value
  {
    if col in row then row[col] else Null
  }

  /** `$data[$col] ?? null` on a data array. */
  function Lookup(d: Data, col: Column): (v: Value)
    ensures DistinctKeys(d) ==> v == Get(DataRow(d), col)
  {
    if d == [] then Null
    else if d[|d| - 1].0 == col then d[|d| - 1].1
    else
      assert DistinctKeys(d) ==> DistinctKeys(d[..|d| - 1]);
      Lookup(d[..|d| - 1], col)
  }

  /** In data with distinct keys, looking up an entry's key finds that entry's value. */
  lemma LookupAt(d: Data, i: nat)
    requires DistinctKeys(d) && i < |d|
    ensures d[i].0 in KeysOf(d) && Lookup(d, d[i].0) == d[i].1
  {
  }

  /** A column no entry names is not a key of the data. */
  lemma NotAKey(d: Data, c: Column)
    requires forall i | 0 <= i < |d| :: d[i].0 != c
    ensures c !in KeysOf(d)
  {
  }

  /** `isset($row[$col])`. */
  predicate IsSet(row: Row, col: Column)
  {
    col in row && row[col] != Null
  }

  /** PHP truthiness of a cell (`if ($v)`, `!empty($v)`). */
  predicate Truthy(v: Value)
  {
    match v
    case Null => false
    case Str(s) => !Empty(s)
    case Int(i) => i != 0
    case Time(_) => true
  }

  /** `(int)$v` / `intval($v)`; an object cast to int gives 1. */
  function IntOf(v: Value): int
  {
    match v
    case Null => 0
    case Str(s) => IntVal(s)
    case Int(i) => i
    case Time(_) => 1
  }

  /** The amount a cell contributes to a sum; a cell that holds no number adds 0. */
  function AmountOf(v: Value): int
  {
    match v
    case Int(i) => i
    case _ => 0
  }

  // ---------------------------------------------------------------------
  // zero-padded decimal fields

  function Pow10(w: nat): (p: nat)
    ensures p >= 1
  {
    if w == 0 then 1 else 10 * Pow10(w - 1)
  }

  /** `n` written with exactly `w` decimal digits, zero-padded on the left. */
  function Pad(n: nat, w: nat): (r: string)
    requires n < Pow10(w)
    ensures |r| == w
    ensures forall k :: 0 <= k < |r| ==> IsDigit(r[k])
  {
    if w == 0 then "" else Pad(n / 10, w - 1) + [DigitChar(n % 10)]
  }

  lemma {:induction false} PadValue(n: nat, w: nat)
    requires n < Pow10(w)
    ensures DigitsValue(Pad(n, w)) == n
  {
    if w > 0 {
      assert n / 10 < Pow10(w - 1);
      var r, r' := Pad(n, w), Pad(n / 10, w - 1);
      PadValue(n / 10, w - 1);
      assert r[..|r| - 1] == r';
      assert DigitValue(r[|r| - 1]) == n % 10;
    }
  }

  /** Equal-length digit strings with the same value are the same string. */
  lemma {:induction false} DigitsInjective(a: string, b: string)
    requires |a| == |b|
    requires forall k :: 0 <= k < |a| ==> IsDigit(a[k])
    requires forall k :: 0 <= k < |b| ==> IsDigit(b[k])
    requires DigitsValue(a) == DigitsValue(b)
    ensures a == b
  {
    if a != [] {
      var n := |a|;
      var a', b' := a[..n - 1], b[..n - 1];
      assert DigitValue(a[n - 1]) == DigitValue(b[n - 1]);
      DigitsInjective(a', b');
      assert a == a' + [a[n - 1]] && b == b' + [b[n - 1]];
    }
  }

  /** Same-width digit strings compare as their values. */
  lemma {:induction false} StrLeDigits(a: string, b: string)
    requires |a| == |b|
    requires forall k :: 0 <= k < |a| ==> IsDigit(a[k])
    requires forall k :: 0 <= k < |b| ==> IsDigit(b[k])
    ensures StrLe(a, b) <==> DigitsValue(a) <= DigitsValue(b)
  {
    if a != [] {
      var n := |a|;
      var a', b' := a[..n - 1], b[..n - 1];
      StrLeDigits(a', b');
      StrLeSnoc(a', b', a[n - 1], b[n - 1]);
      assert a == a' + [a[n - 1]] && b == b' + [b[n - 1]];
      if a' != b' {
        if DigitsValue(a') == DigitsValue(b') {
          DigitsInjective(a', b');
        }
      }
    }
  }

  /** Comparing two strings extended by one character each. */
  lemma {:induction false} StrLeSnoc(a: string, b: string, x: char, y: char)
    requires |a| == |b|
    ensures StrLe(a + [x], b + [y]) <==> (if a == b then x <= y else StrLe(a, b))
  {
    if a == [] {
    } else {
      StrLeSnoc(a[1..], b[1..], x, y);
      assert (a + [x])[1..] == a[1..] + [x];
      assert (b + [y])[1..] == b[1..] + [y];
      if a[0] == b[0] && a[1..] == b[1..] {
        assert a == [a[0]] + a[1..] && b == [b[0]] + b[1..];
      }
    }
  }

  /** Comparing concatenations whose first parts have the same length. */
  lemma {:induction false} StrLeConcat(a: string, b: string, x: string, y: string)
    requires |a| == |b|
    ensures StrLe(a + x, b + y) <==> (if a == b then StrLe(x, y) else StrLe(a, b))
  {
    if a == [] {
      assert a + x == x && b + y == y;
    } else {
      StrLeConcat(a[1..], b[1..], x, y);
      assert (a + x)[1..] == a[1..] + x;
      assert (b + y)[1..] == b[1..] + y;
      if a[0] == b[0] && a[1..] == b[1..] {
        assert a == [a[0]] + a[1..] && b == [b[0]] + b[1..];
      }
    }
  }

  /** Two same-width padded fields compare as the numbers they hold. */
  lemma PadOrder(n: nat, m: nat, w: nat)
    requires n < Pow10(w) && m < Pow10(w)
    ensures StrLe(Pad(n, w), Pad(m, w)) <==> n <= m
    ensures Pad(n, w) == Pad(m, w) <==> n == m
  {
    PadValue(n, w);
    PadValue(m, w);
    StrLeDigits(Pad(n, w), Pad(m, w));
  }

  /** A field, a separator, then the rest: the field decides unless it ties. */
  lemma FieldThen(f: string, g: string, sep: char, x: string, y: string)
    requires |f| == |g|
    ensures StrLe(f + [sep] + x, g + [sep] + y) <==> (if f == g then StrLe(x, y) else StrLe(f, g))
  {
    assert f + [sep] + x == f + ([sep] + x);
    assert g + [sep] + y == g + ([sep] + y);
    StrLeConcat(f, g, [sep] + x, [sep] + y);
    StrLeConcat([sep], [sep], x, y);
  }

  // ---------------------------------------------------------------------
  // the two text forms of a timestamp

  function Field2(n: nat): (r: string)
    ensures |r| == 2
  {
    Pad(n % 100, 2)
  }

  function Field4(n: nat): (r: string)
    ensures |r| == 4
  {
    Pad(n % 10000, 4)
  }

  function SecondText(t: DateTime): string
  {
    Field2(t.second)
  }

  function MinuteText(t: DateTime): string
  {
    Field2(t.minute) + ":" + SecondText(t)
  }

  function ClockText(t: DateTime): string
  {
    Field2(t.hour) + ":" + MinuteText(t)
  }

  function DayClockText(t: DateTime): string
  {
    Field2(t.day) + " " + ClockText(t)
  }

  function MonthDayClockText(t: DateTime): string
  {
    Field2(t.month) + "-" + DayClockText(t)
  }

  /** `date('Y-m-d H:i:s')`: the table's own text form. */
  function IsoText(t: DateTime): string
  {
    Field4(t.year) + "-" + MonthDayClockText(t)
  }

  /** `date('H:i:s m/d/Y')`: the admin listing's text form. */
  function ListingText(t: DateTime): string
  {
    Field2(t.hour) + ":" + Field2(t.minute) + ":" + Field2(t.second) + " " +
    Field2(t.month) + "/" + Field2(t.day) + "/" + Field4(t.year)
  }

  /** PHP's string cast of a cell; a DATETIME cell reads back in its `Y-m-d H:i:s` form. */
  function Text(v: Value): string
  {
    match v
    case Null => ""
    case Str(s) => s
    case Int(i) => IntToString(i)
    case Time(t) => IsoText(t)
  }

  lemma FieldOrder2(n: nat, m: nat)
    requires n < 100 && m < 100
    ensures StrLe(Field2(n), Field2(m)) <==> n <= m
    ensures Field2(n) == Field2(m) <==> n == m
  {
    assert Pow10(2) == 100;
    assert n % 100 == n && m % 100 == m;
    PadOrder(n, m, 2);
  }

  lemma FieldOrder4(n: nat, m: nat)
    requires n < 10000 && m < 10000
    ensures StrLe(Field4(n), Field4(m)) <==> n <= m
    ensures Field4(n) == Field4(m) <==> n == m
  {
    assert Pow10(2) == 100;
    assert Pow10(4) == 10000;
    assert n % 10000 == n && m % 10000 == m;
    PadOrder(n, m, 4);
  }

  lemma ClockTextOrder(a: DateTime, b: DateTime)
    requires a.Valid() && b.Valid()
    ensures StrLe(ClockText(a), ClockText(b)) <==>
      (if a.hour != b.hour then a.hour < b.hour
       else if a.minute != b.minute then a.minute < b.minute
       else a.second <= b.second)
  {
    FieldOrder2(a.second, b.second);
    FieldOrder2(a.minute, b.minute);
    FieldOrder2(a.hour, b.hour);
    FieldThen(Field2(a.minute), Field2(b.minute), ':', SecondText(a), SecondText(b));
    FieldThen(Field2(a.hour), Field2(b.hour), ':', MinuteText(a), MinuteText(b));
  }

  lemma DayClockTextOrder(a: DateTime, b: DateTime)
    requires a.Valid() && b.Valid()
    ensures StrLe(DayClockText(a), DayClockText(b)) <==>
      (if a.day != b.day then a.day < b.day
       else if a.hour != b.hour then a.hour < b.hour
       else if a.minute != b.minute then a.minute < b.minute
       else a.second <= b.second)
  {
    ClockTextOrder(a, b);
    FieldOrder2(a.day, b.day);
    FieldThen(Field2(a.day), Field2(b.day), ' ', ClockText(a), ClockText(b));
  }

  lemma MonthDayClockTextOrder(a: DateTime, b: DateTime)
    requires a.Valid() && b.Valid()
    ensures StrLe(MonthDayClockText(a), MonthDayClockText(b)) <==>
      (if a.month != b.month then a.month < b.month
       else if a.day != b.day then a.day < b.day
       else if a.hour != b.hour then a.hour < b.hour
       else if a.minute != b.minute then a.minute < b.minute
       else a.second <= b.second)
  {
    DayClockTextOrder(a, b);
    FieldOrder2(a.month, b.month);
    FieldThen(Field2(a.month), Field2(b.month), '-', DayClockText(a), DayClockText(b));
  }

  /**
   * On valid date-times the table's text form orders exactly as time does,
   * so a string sort on it is a chronological sort.
   */
  lemma IsoTextChronological(a: DateTime, b: DateTime)
    requires a.Valid() && b.Valid()
    ensures StrLe(IsoText(a), IsoText(b)) <==> Before(a, b)
  {
    MonthDayClockTextOrder(a, b);
    FieldOrder4(a.year, b.year);
    FieldThen(Field4(a.year), Field4(b.year), '-', MonthDayClockText(a), MonthDayClockText(b));
  }
}
