/**
 * The card-data normalisation the direct method's page script performs
 * before it encrypts the card: the expiry field "MM/YY" split into a
 * trimmed month and a four-digit year (the century taken from the current
 * year), the card number with every white-space character removed and the
 * CVV trimmed. Script strings are sequences of UTF-16 code units, which
 * `char` stands for here.
 */
module CardExpiry {
  import opened Php

  /** JavaScript's white space for `\s` and `String.prototype.trim`: the ASCII spaces, NBSP, BOM, line terminators and the Unicode space separators. */
  predicate IsJsSpace(c: char)
  {
    c == ' ' || c == '\t' || c == '\n' || c == '\U{0B}' || c == '\U{0C}' || c == '\r' ||
    c == '\U{A0}' || c == '\U{1680}' || ('\U{2000}' <= c <= '\U{200A}') ||
    c == '\U{2028}' || c == '\U{2029}' || c == '\U{202F}' || c == '\U{205F}' || c == '\U{3000}' || c == '\U{FEFF}'
  }

  /** The string has no white space at either end. */
  predicate Trimmed(s: string)
  {
    s == [] || (!IsJsSpace(s[0]) && !IsJsSpace(s[|s| - 1]))
  }

  /** The length of the longest prefix of white space. */
  function LeadingSpaces(s: string): (n: nat)
    ensures n <= |s|
    ensures forall k | 0 <= k < n :: IsJsSpace(s[k])
    ensures n == |s| || !IsJsSpace(s[n])
  {
    if s != [] && IsJsSpace(s[0]) then 1 + LeadingSpaces(s[1..]) else 0
  }

  /** The length of the longest suffix of white space. */
  function TrailingSpaces(s: string): (n: nat)
    ensures n <= |s|
    ensures forall k | |s| - n <= k < |s| :: IsJsSpace(s[k])
    ensures n == |s| || !IsJsSpace(s[|s| - n - 1])
  {
    if s != [] && IsJsSpace(s[|s| - 1]) then 1 + TrailingSpaces(s[..|s| - 1]) else 0
  }

  /**
   * `String.prototype.trim`: `s` without the white space at either end.
   * What is kept is the middle part of `s` from its first character that
   * is not white space, and everything dropped behind it is white space.
   */
  function JsTrim(s: string): (r: string)
    ensures Trimmed(r)
    ensures LeadingSpaces(s) + |r| <= |s|
    ensures r == s[LeadingSpaces(s)..LeadingSpaces(s) + |r|]
    ensures forall k | LeadingSpaces(s) + |r| <= k < |s| :: IsJsSpace(s[k])
  {
    var a := LeadingSpaces(s);
    var n := TrailingSpaces(s[a..]);
    TrimmedMiddle(s, a, n);
    SpacesBehind(s, a, n);
    s[a..|s| - n]
  }

  /** Between a first character that is not white space and a last one that is not, nothing is white space at either end. */
  lemma TrimmedMiddle(s: string, a: nat, n: nat)
    requires a <= |s| && n <= |s| - a
    requires a == |s| || !IsJsSpace(s[a])
    requires n == |s| - a || !IsJsSpace(s[a..][|s| - a - n - 1])
    ensures Trimmed(s[a..|s| - n])
  {
    var r := s[a..|s| - n];
    if r != [] {
      assert r[0] == s[a];
      assert r[|r| - 1] == s[a..][|s| - a - n - 1];
    }
  }

  /** The trailing white space of the rest is white space of the whole. */
  lemma SpacesBehind(s: string, a: nat, n: nat)
    requires a <= |s| && n == TrailingSpaces(s[a..])
    ensures forall k | |s| - n <= k < |s| :: IsJsSpace(s[k])
  {
    forall k | |s| - n <= k < |s|
      ensures IsJsSpace(s[k])
    {
      assert s[k] == s[a..][k - a];
    }
  }

  /** A string that is already trimmed is its own trim; so trimming twice is trimming once. */
  lemma JsTrimTrimmed(s: string)
    requires Trimmed(s)
    ensures JsTrim(s) == s
  {
    assert LeadingSpaces(s) == 0;
    assert s[0..] == s;
    assert TrailingSpaces(s) == 0;
  }

  /** `replaceAll(/\s/g, '')`: every white-space character removed, everything else kept in order. */
  function StripWhitespace(s: string): (r: string)
    ensures forall k | 0 <= k < |r| :: !IsJsSpace(r[k])
    ensures forall c | !IsJsSpace(c) :: multiset(r)[c] == multiset(s)[c]
    ensures forall c | IsJsSpace(c) :: multiset(r)[c] == 0
  {
    if s == [] then []
    else
      assert s == [s[0]] + s[1..];
      (if IsJsSpace(s[0]) then [] else [s[0]]) + StripWhitespace(s[1..])
  }

  /** Stripping works piece by piece: the characters kept keep their order. */
  lemma {:induction false} StripWhitespaceAppend(a: string, b: string)
    ensures StripWhitespace(a + b) == StripWhitespace(a) + StripWhitespace(b)
  {
    if a == [] {
      assert a + b == b;
    } else {
      StripWhitespaceAppend(a[1..], b);
      StripWhitespaceStep(a, b);
    }
  }

  /** The inductive step of `StripWhitespaceAppend`: from the tail of `a` to `a`. */
  lemma StripWhitespaceStep(a: string, b: string)
    requires a != [] && StripWhitespace(a[1..] + b) == StripWhitespace(a[1..]) + StripWhitespace(b)
    ensures StripWhitespace(a + b) == StripWhitespace(a) + StripWhitespace(b)
  {
    var h: string := if IsJsSpace(a[0]) then [] else [a[0]];
    ConcatTail(a, b);
    ConcatAssoc(StripWhitespace(a + b), StripWhitespace(a), h, StripWhitespace(a[1..]), StripWhitespace(b));
  }

  /** On one character: white space goes, any other character stays. */
  lemma StripWhitespaceChar(c: char)
    ensures StripWhitespace([c]) == if IsJsSpace(c) then [] else [c]
  {
  }

  /** A card number without white space is left as it is. */
  lemma {:induction false} StripWhitespaceKeeps(s: string)
    requires forall k | 0 <= k < |s| :: !IsJsSpace(s[k])
    ensures StripWhitespace(s) == s
  {
    if s != [] {
      StripWhitespaceKeeps(s[1..]);
    }
  }

  /** `substring(length - 2)`: the last two characters, the whole string when it is shorter. */
  function LastTwo(s: string): (r: string)
    ensures |r| == if |s| < 2 then |s| else 2
    ensures r == s[|s| - |r|..]
  {
    if |s| < 2 then s else s[|s| - 2..]
  }

  /** The first two digits of the current year (`getFullYear().toString().substring(0, 2)`). */
  function Century(yearNow: nat): string
  {
    Prefix(NatToString(yearNow), 2)
  }

  /**
   * `transformCardExpiry`: no input or an empty one gives ['', '']; with a
   * month and a year part (split at '/') the month is trimmed and the year
   * becomes the current century followed by the last two characters of the
   * trimmed year part; otherwise the parts come back as they were, a
   * missing year as ''.
   */
  function TransformCardExpiry(cardExpiry: Option<string>, yearNow: nat): (r: (string, string))
    ensures cardExpiry.None? || cardExpiry.value == "" ==> r == ("", "")
    ensures cardExpiry.Some? && cardExpiry.value != "" ==>
      var parts := Explode('/', cardExpiry.value);
      if |parts| >= 2 && parts[0] != "" && parts[1] != "" then
        r.0 == JsTrim(parts[0]) && r.1 == Century(yearNow) + LastTwo(JsTrim(parts[1]))
      else
        r == (parts[0], if |parts| >= 2 then parts[1] else "")
  {
    if cardExpiry.None? || cardExpiry.value == "" then ("", "")
    else
      var parts := Explode('/', cardExpiry.value);
      var month := parts[0];
      var year := if |parts| >= 2 then Some(parts[1]) else None;
      if month != "" && year.Some? && year.value != "" then
        var year := JsTrim(year.value);
        (JsTrim(month), Century(yearNow) + LastTwo(year))
      else
        (month, if year.Some? then year.value else "")
  }

  /** Splitting "M/Y" at '/' gives the two parts when neither holds a '/'. */
  lemma ExplodeTwo(m: string, y: string)
    requires '/' !in m && '/' !in y
    ensures Explode('/', m + "/" + y) == [m, y]
  {
    var s := m + "/" + y;
    assert s[|m|] == '/';
    assert s[..|m|] == m;
    var i := IndexOf('/', s);
    assert i == |m|;
    assert s[i + 1..] == y;
  }

  /** Any current year from 2000 to 2099 gives the century "20". */
  lemma CenturyOfThisCentury(yearNow: nat)
    requires 2000 <= yearNow <= 2099
    ensures Century(yearNow) == "20"
  {
    var decade := yearNow / 10;
    assert 200 <= decade <= 209;
    assert NatToString(yearNow) == NatToString(decade) + [DigitChar(yearNow % 10)];
    assert NatToString(decade) == NatToString(20) + [DigitChar(decade % 10)];
    assert NatToString(20) == NatToString(2) + [DigitChar(0)];
  }

  /**
   * The round trip the form relies on: "MM/YY" with a month and a
   * two-character year, neither holding white space or '/', comes back as
   * the month and the century followed by the year.
   */
  lemma TransformCardExpiryOfMonthYear(month: string, year: string, yearNow: nat)
    requires month != "" && |year| == 2
    requires '/' !in month && '/' !in year
    requires forall k | 0 <= k < |month| :: !IsJsSpace(month[k])
    requires forall k | 0 <= k < |year| :: !IsJsSpace(year[k])
    ensures TransformCardExpiry(Some(month + "/" + year), yearNow) == (month, Century(yearNow) + year)
  {
    ExplodeTwo(month, year);
    JsTrimTrimmed(month);
    JsTrimTrimmed(year);
  }

  /** A half-typed expiry comes back untouched: "12" gives ["12", ""], "/25" gives ["", "25"]. */
  lemma TransformCardExpiryPartial(yearNow: nat)
    ensures TransformCardExpiry(Some("12"), yearNow) == ("12", "")
    ensures TransformCardExpiry(Some("/25"), yearNow) == ("", "25")
  {
    assert Explode('/', "12") == ["12"];
    ExplodeTwo("", "25");
    assert "" + "/" + "25" == "/25";
  }

  /** What the card form holds; a field the page lacks is `None` (optional chaining gives `undefined`). */
  datatype CardForm = CardForm(holder: Option<string>, number: Option<string>, expiration: Option<string>, cvv: Option<string>)

  /** The card data handed to the encryption. */
  datatype CardData = CardData(holder: Option<string>, number: Option<string>, month: string, year: string, cvv: Option<string>)

  /**
   * `creditCardData`: the holder as typed, the number with all white space
   * removed, the expiry transformed, the CVV trimmed.
   */
  function CreditCardData(form: CardForm, yearNow: nat): (r: CardData)
    ensures r.holder == form.holder
    ensures r.number.Some? <==> form.number.Some?
    ensures r.number.Some? ==> forall k | 0 <= k < |r.number.value| :: !IsJsSpace(r.number.value[k])
    ensures r.number.Some? ==> forall c | !IsJsSpace(c) :: multiset(r.number.value)[c] == multiset(form.number.value)[c]
    ensures (r.month, r.year) == TransformCardExpiry(form.expiration, yearNow)
    ensures r.cvv.Some? <==> form.cvv.Some?
    ensures r.number.Some? ==> r.number.value == StripWhitespace(form.number.value)
    ensures r.cvv.Some? ==> Trimmed(r.cvv.value) && r.cvv.value == JsTrim(form.cvv.value)
  {
    var (month, year) := TransformCardExpiry(form.expiration, yearNow);
    CardData(
      form.holder,
      if form.number.Some? then Some(StripWhitespace(form.number.value)) else None,
      month, year,
      if form.cvv.Some? then Some(JsTrim(form.cvv.value)) else None)
  }
}
