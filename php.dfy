/**
 * String and number semantics of the PHP (and a few JavaScript) built-ins
 * the plugin relies on: `empty`, `trim`, `substr`, `explode`, `str_replace`,
 * `strtoupper`, `intval`, the string comparison behind `<=>` and the stable
 * sort behind `uasort`/`asort`.
 */
module Php {

  datatype Option<T> = None | Some(value: T)

  // ---------------------------------------------------------------------
  // empty() on a string

  /** PHP's `empty($s)` for a string: true for "" and for "0". */
  predicate Empty(s: string)
  {
    s == "" || s == "0"
  }

  /** No string occurs twice in the list. */
  ghost predicate Distinct(s: seq<string>)
  {
    forall i, j :: 0 <= i < j < |s| ==> s[i] != s[j]
  }

  // ---------------------------------------------------------------------
  // trim()

  /** The characters PHP's `trim` strips by default: " \t\n\r\0\x0B". */
  predicate IsTrimChar(c: char)
  {
    c == ' ' || c == '\t' || c == '\n' || c == '\r' || c == '\0' || c == '\U{0B}'
  }

  /** The length of the longest prefix of trim characters. */
  function LeadingTrim(s: string): (n: nat)
    ensures n <= |s|
    ensures forall k | 0 <= k < n :: IsTrimChar(s[k])
    ensures n == |s| || !IsTrimChar(s[n])
  {
    if s != [] && IsTrimChar(s[0]) then 1 + LeadingTrim(s[1..]) else 0
  }

  /** The length of the longest suffix of trim characters. */
  function TrailingTrim(s: string): (n: nat)
    ensures n <= |s|
    ensures forall k | |s| - n <= k < |s| :: IsTrimChar(s[k])
    ensures n == |s| || !IsTrimChar(s[|s| - n - 1])
  {
    if s != [] && IsTrimChar(s[|s| - 1]) then 1 + TrailingTrim(s[..|s| - 1]) else 0
  }

  /** `ltrim`: drops the longest prefix of trim characters. */
  function TrimLeft(s: string): (r: string)
    ensures |r| == |s| - LeadingTrim(s) && forall k | 0 <= k < |r| :: r[k] == s[LeadingTrim(s) + k]
    ensures r == [] || !IsTrimChar(r[0])
    ensures forall k :: 0 <= k < |s| - |r| ==> IsTrimChar(s[k])
  {
    s[LeadingTrim(s)..]
  }

  /** `rtrim`: drops the longest suffix of trim characters. */
  function TrimRight(s: string): (r: string)
    ensures |r| <= |s| && forall k | 0 <= k < |r| :: r[k] == s[k]
    ensures r == [] || !IsTrimChar(r[|r| - 1])
    ensures forall k :: |r| <= k < |s| ==> IsTrimChar(s[k])
  {
    s[..|s| - TrailingTrim(s)]
  }

  /** `trim`: drops the leading and the trailing trim characters (`TrimMiddle` says what is kept). */
  function Trim(s: string): (r: string)
    ensures |r| <= |s|
    ensures r == [] || (!IsTrimChar(r[0]) && !IsTrimChar(r[|r| - 1]))
  {
    TrimRight(TrimLeft(s))
  }

  /**
   * What `trim` keeps is the infix of `s` that starts after its leading
   * trim characters (`LeadingTrim` says those are all trim characters);
   * only trim characters follow it, and it neither starts nor ends with
   * one, so it is the maximal such infix.
   */
  lemma TrimMiddle(s: string)
    ensures LeadingTrim(s) + |Trim(s)| <= |s|
    ensures Trim(s) == s[LeadingTrim(s)..LeadingTrim(s) + |Trim(s)|]
    ensures forall k | LeadingTrim(s) + |Trim(s)| <= k < |s| :: IsTrimChar(s[k])
  {
    var l := TrimLeft(s);
    TrimmedSlice(s, LeadingTrim(s), l, TrimRight(l));
  }

  /** An infix `l` of `s` at `n`, less trim characters at its end, is the infix `r` at `n`, with only trim characters after it. */
  lemma TrimmedSlice(s: string, n: nat, l: string, r: string)
    requires n + |l| == |s| && forall k | 0 <= k < |l| :: l[k] == s[n + k]
    requires |r| <= |l| && forall k | 0 <= k < |r| :: r[k] == l[k]
    requires forall k | |r| <= k < |l| :: IsTrimChar(l[k])
    ensures n + |r| <= |s|
    ensures r == s[n..n + |r|]
    ensures forall k | n + |r| <= k < |s| :: IsTrimChar(s[k])
  {
    forall k | n + |r| <= k < |s|
      ensures IsTrimChar(s[k])
    {
      assert s[k] == l[k - n];
    }
  }

  /** What `trim` keeps is a piece of `s`: it occurs in `s` where the dropped prefix ends. */
  lemma TrimIsInfix(s: string)
    ensures Contains(s, Trim(s))
  {
    assert OccursAt(s, Trim(s), LeadingTrim(s));
  }

  /** Trimming twice is trimming once. */
  lemma {:induction false} TrimIdempotent(s: string)
    ensures Trim(Trim(s)) == Trim(s)
  {
    var t := Trim(s);
    if t != [] {
      assert TrimLeft(t) == t;
      assert TrimRight(t) == t;
    }
  }

  /** A string that neither starts nor ends with a trim character is its own trim. */
  lemma TrimKeeps(s: string)
    requires s == [] || (!IsTrimChar(s[0]) && !IsTrimChar(s[|s| - 1]))
    ensures Trim(s) == s
  {
    assert TrimLeft(s) == s;
  }

  // ---------------------------------------------------------------------
  // substr()

  /** `substr($s, 0, $n)` for a non-negative length. */
  function Prefix(s: string, n: nat): (r: string)
    ensures |r| == if n <= |s| then n else |s|
    ensures r <= s
  {
    if n <= |s| then s[..n] else s
  }

  /**
   * `substr($s, $start)` with PHP 8 semantics: a negative start counts from
   * the end (clamped at 0), a start past the end gives "".
   */
  function SubstrFrom(s: string, start: int): (r: string)
    ensures start >= 0 ==> (if start <= |s| then r == s[start..] else r == "")
    ensures start < 0 ==> (if -start <= |s| then r == s[|s| + start..] else r == s)
  {
    if start >= 0 then (if start <= |s| then s[start..] else "")
    else if |s| + start >= 0 then s[|s| + start..]
    else s
  }

  // ---------------------------------------------------------------------
  // explode() / implode()

  /** `implode($sep, $parts)` with a one-character glue. */
  function Implode(sep: char, parts: seq<string>): string
  {
    if parts == [] then ""
    else if |parts| == 1 then parts[0]
    else parts[0] + [sep] + Implode(sep, parts[1..])
  }

  /** `explode($sep, $s)` with a one-character separator. */
  function Explode(sep: char, s: string): (r: seq<string>)
    ensures |r| >= 1
    ensures Implode(sep, r) == s
    ensures forall k :: 0 <= k < |r| ==> sep !in r[k]
    decreases |s|
  {
    if sep !in s then [s]
    else
      var i := IndexOf(sep, s);
      var rest := Explode(sep, s[i + 1..]);
      assert s == s[..i] + [sep] + s[i + 1..];
      [s[..i]] + rest
  }

  /** The first position of `c` in `s`. */
  function IndexOf(c: char, s: string): (i: nat)
    requires c in s
    ensures i < |s| && s[i] == c && c !in s[..i]
  {
    if s[0] == c then 0 else 1 + IndexOf(c, s[1..])
  }

  // ---------------------------------------------------------------------
  // substring search and str_replace(..., '', ...)

  /** `pat` occurs in `s` at position `i`. */
  predicate OccursAt(s: string, pat: string, i: int)
  {
    0 <= i <= |s| - |pat| && s[i..i + |pat|] == pat
  }

  /** `strpos($s, $pat) !== false`. */
  predicate Contains(s: string, pat: string)
  {
    exists i | 0 <= i <= |s| - |pat| :: OccursAt(s, pat, i)
  }

  /**
   * `str_replace($pat, '', $s)`: scans left to right and deletes every
   * non-overlapping occurrence of a non-empty `pat`.
   */
  function RemoveAll(s: string, pat: string): (r: string)
    requires pat != ""
    ensures |r| <= |s|
    ensures !Contains(s, pat) ==> r == s
    decreases |s|
  {
    if |s| < |pat| then s
    else if s[..|pat|] == pat then
      assert OccursAt(s, pat, 0);
      RemoveAll(s[|pat|..], pat)
    else
      ContainsOfTail(s, pat);
      [s[0]] + RemoveAll(s[1..], pat)
  }

  lemma ContainsOfTail(s: string, pat: string)
    requires s != []
    ensures Contains(s[1..], pat) ==> Contains(s, pat)
  {
    if Contains(s[1..], pat) {
      var i :| 0 <= i <= |s[1..]| - |pat| && OccursAt(s[1..], pat, i);
      assert s[i + 1..i + 1 + |pat|] == s[1..][i..i + |pat|];
      assert OccursAt(s, pat, i + 1);
    }
  }

  /** `str_replace($pats, '', $s)` with an array of searches, applied one after another. */
  function RemoveEach(s: string, pats: seq<string>): (r: string)
    requires forall k :: 0 <= k < |pats| ==> pats[k] != ""
    ensures |r| <= |s|
    ensures (forall k :: 0 <= k < |pats| ==> !Contains(s, pats[k])) ==> r == s
    decreases |pats|
  {
    if pats == [] then s else RemoveEach(RemoveAll(s, pats[0]), pats[1..])
  }

  /** `str_replace(' ', '', $s)`: every space is dropped, nothing else changes. */
  function RemoveSpaces(s: string): (r: string)
    ensures ' ' !in r
    ensures multiset(r)[' '] == 0
    ensures forall c :: c != ' ' ==> multiset(r)[c] == multiset(s)[c]
  {
    if s == [] then []
    else
      assert s == [s[0]] + s[1..];
      (if s[0] == ' ' then [] else [s[0]]) + RemoveSpaces(s[1..])
  }

  /** Removing spaces works piece by piece: the other characters keep their order. */
  lemma {:induction false} RemoveSpacesAppend(a: string, b: string)
    ensures RemoveSpaces(a + b) == RemoveSpaces(a) + RemoveSpaces(b)
  {
    if a == [] {
      assert a + b == b;
    } else {
      RemoveSpacesAppend(a[1..], b);
      RemoveSpacesStep(a, b);
    }
  }

  /** The inductive step of `RemoveSpacesAppend`: from the tail of `a` to `a`. */
  lemma RemoveSpacesStep(a: string, b: string)
    requires a != [] && RemoveSpaces(a[1..] + b) == RemoveSpaces(a[1..]) + RemoveSpaces(b)
    ensures RemoveSpaces(a + b) == RemoveSpaces(a) + RemoveSpaces(b)
  {
    var h: string := if a[0] == ' ' then [] else [a[0]];
    ConcatTail(a, b);
    ConcatAssoc(RemoveSpaces(a + b), RemoveSpaces(a), h, RemoveSpaces(a[1..]), RemoveSpaces(b));
  }

  /** The head and tail of `a + b` for a non-empty `a`. */
  lemma ConcatTail(a: string, b: string)
    requires a != []
    ensures (a + b)[0] == a[0] && (a + b)[1..] == a[1..] + b
  {
  }

  lemma ConcatAssoc(hxy: string, hx: string, h: string, x: string, y: string)
    requires hxy == h + (x + y) && hx == h + x
    ensures hxy == hx + y
  {
  }

  /** On one character: a space goes, any other character stays. */
  lemma RemoveSpacesChar(c: char)
    ensures RemoveSpaces([c]) == if c == ' ' then [] else [c]
  {
  }

  // ---------------------------------------------------------------------
  // strtoupper()

  function UpperChar(c: char): char
  {
    if 'a' <= c <= 'z' then (c as int - 32) as char else c
  }

  /** `strtoupper` on ASCII letters. */
  function Upper(s: string): (r: string)
    ensures |r| == |s|
    ensures forall k :: 0 <= k < |s| ==> r[k] == UpperChar(s[k])
    ensures forall k :: 0 <= k < |r| ==> !('a' <= r[k] <= 'z')
  {
    if s == [] then [] else [UpperChar(s[0])] + Upper(s[1..])
  }

  function LowerChar(c: char): char
  {
    if 'A' <= c <= 'Z' then (c as int + 32) as char else c
  }

  /** `strtolower` on ASCII letters. */
  function Lower(s: string): (r: string)
    ensures |r| == |s|
    ensures forall k :: 0 <= k < |s| ==> r[k] == LowerChar(s[k])
  {
    if s == [] then [] else [LowerChar(s[0])] + Lower(s[1..])
  }

  /** Two strings that differ at most in the case of ASCII letters. */
  predicate SameIgnoringCase(a: string, b: string)
  {
    |a| == |b| && forall k :: 0 <= k < |a| ==> LowerChar(a[k]) == LowerChar(b[k])
  }

  /** `strtolower($s) == $t` for an all-lower-case `t` is a case-blind comparison. */
  lemma LowerEqualsIgnoringCase(s: string, t: string)
    requires Lower(t) == t
    ensures Lower(s) == t <==> SameIgnoringCase(s, t)
  {
    if SameIgnoringCase(s, t) {
      assert forall k :: 0 <= k < |t| ==> LowerChar(t[k]) == t[k] by {
        forall k | 0 <= k < |t| ensures LowerChar(t[k]) == t[k] {
          assert Lower(t)[k] == LowerChar(t[k]);
        }
      }
      assert Lower(s) == t;
    }
  }

  // ---------------------------------------------------------------------
  // integers as decimal text

  function DigitChar(d: nat): (c: char)
    requires d < 10
    ensures IsDigit(c)
  {
    ('0' as int + d) as char
  }

  predicate IsDigit(c: char)
  {
    '0' <= c <= '9'
  }

  function DigitValue(c: char): (d: nat)
    requires IsDigit(c)
    ensures d < 10 && DigitChar(d) == c
  {
    c as int - '0' as int
  }

  /** The decimal digits of a natural number, without leading zeros. */
  function NatToString(n: nat): (r: string)
    ensures |r| >= 1
    ensures forall k :: 0 <= k < |r| ==> IsDigit(r[k])
    ensures |r| > 1 ==> r[0] != '0'
  {
    if n < 10 then [DigitChar(n)] else NatToString(n / 10) + [DigitChar(n % 10)]
  }

  /** The value of a run of decimal digits. */
  function DigitsValue(s: string): nat
    requires forall k :: 0 <= k < |s| ==> IsDigit(s[k])
  {
    if s == [] then 0 else DigitsValue(s[..|s| - 1]) * 10 + DigitValue(s[|s| - 1])
  }

  lemma {:induction false} DigitsOfNat(n: nat)
    ensures DigitsValue(NatToString(n)) == n
  {
    var r := NatToString(n);
    if n >= 10 {
      DigitsOfNat(n / 10);
      assert r[..|r| - 1] == NatToString(n / 10);
    }
  }

  /** PHP's string conversion of an integer. */
  function IntToString(n: int): (r: string)
    ensures n >= 0 ==> r == NatToString(n)
    ensures n < 0 ==> r == "-" + NatToString(-n)
  {
    if n >= 0 then NatToString(n) else "-" + NatToString(-n)
  }

  /** The longest prefix of `s` made of decimal digits. */
  function LeadingDigits(s: string): (r: string)
    ensures r <= s
    ensures forall k :: 0 <= k < |r| ==> IsDigit(r[k])
    ensures |r| < |s| ==> !IsDigit(s[|r|])
  {
    if s != [] && IsDigit(s[0]) then [s[0]] + LeadingDigits(s[1..]) else []
  }

  predicate IsIntSpace(c: char)
  {
    c == ' ' || c == '\t' || c == '\n' || c == '\r' || c == '\U{0B}' || c == '\U{0C}'
  }

  /** The length of the longest prefix of the white space `intval` skips. */
  function LeadingIntSpace(s: string): (n: nat)
    ensures n <= |s|
    ensures forall k | 0 <= k < n :: IsIntSpace(s[k])
    ensures n == |s| || !IsIntSpace(s[n])
  {
    if s != [] && IsIntSpace(s[0]) then 1 + LeadingIntSpace(s[1..]) else 0
  }

  function SkipIntSpace(s: string): (r: string)
    ensures |r| == |s| - LeadingIntSpace(s) && forall k | 0 <= k < |r| :: r[k] == s[LeadingIntSpace(s) + k]
    ensures r == [] || !IsIntSpace(r[0])
  {
    s[LeadingIntSpace(s)..]
  }

  /**
   * `intval($s)` / `(int)$s` on a string: optional leading whitespace, an
   * optional sign, then the longest run of digits; no digits gives 0.
   * The exponent form PHP also reads ("1e3") and its clamp at PHP_INT_MAX
   * are not modelled.
   */
  function IntVal(s: string): int
  {
    var t := SkipIntSpace(s);
    if t != [] && t[0] == '-' then 0 - DigitsValue(LeadingDigits(t[1..]))
    else if t != [] && t[0] == '+' then DigitsValue(LeadingDigits(t[1..]))
    else DigitsValue(LeadingDigits(t))
  }

  /** `intval` reads back what PHP writes for an integer. */
  lemma {:induction false} IntValOfIntToString(n: int)
    ensures IntVal(IntToString(n)) == n
  {
    if n >= 0 {
      IntValOfDigits(NatToString(n));
      DigitsOfNat(n);
    } else {
      var digits := NatToString(-n);
      var t := "-" + digits;
      assert SkipIntSpace(t) == t;
      assert t[1..] == digits;
      LeadingDigitsOfDigits(digits);
      DigitsOfNat(-n);
    }
  }

  lemma IntValOfDigits(s: string)
    requires s != [] && forall k :: 0 <= k < |s| ==> IsDigit(s[k])
    ensures IntVal(s) == DigitsValue(s)
  {
    assert IsDigit(s[0]) && !IsIntSpace(s[0]);
    assert SkipIntSpace(s) == s;
    LeadingDigitsOfDigits(s);
  }

  lemma {:induction false} LeadingDigitsOfDigits(s: string)
    requires forall k :: 0 <= k < |s| ==> IsDigit(s[k])
    ensures LeadingDigits(s) == s
  {
    if s != [] {
      LeadingDigitsOfDigits(s[1..]);
    }
  }

  /**
   * `s` is a numeric string in integer form: optional leading whitespace,
   * an optional sign, at least one digit, optional trailing whitespace.
   */
  predicate IsIntegerText(s: string)
  {
    var t := SkipIntSpace(s);
    var body := if t != [] && (t[0] == '-' || t[0] == '+') then t[1..] else t;
    var digits := LeadingDigits(body);
    digits != [] && forall k | |digits| <= k < |body| :: IsIntSpace(body[k])
  }

  /**
   * PHP 8's `$s == '<n>'` against the decimal text of a natural number:
   * two numeric strings compare as numbers (decimal-point and exponent
   * forms are not modelled).
   */
  predicate LooseEqualsNumber(s: string, n: nat)
  {
    IsIntegerText(s) && IntVal(s) == n
  }

  // ---------------------------------------------------------------------
  // array_intersect() / array_diff() on lists of strings

  /** `array_intersect($a, $b)`: the entries of `a` that occur in `b`, in `a`'s order. */
  function Intersect(a: seq<string>, b: seq<string>): (r: seq<string>)
    ensures forall x :: x in r <==> x in a && x in b
  {
    if a == [] then []
    else Intersect(a[..|a| - 1], b) + (if a[|a| - 1] in b then [a[|a| - 1]] else [])
  }

  /** `array_diff($xs, $excluded)`. */
  function Without(xs: seq<string>, excluded: seq<string>): (r: seq<string>)
    ensures forall t :: t in r <==> t in xs && t !in excluded
  {
    if xs == [] then []
    else (if xs[0] in excluded then [] else [xs[0]]) + Without(xs[1..], excluded)
  }

  // ---------------------------------------------------------------------
  // string order (strcmp, `<=>` on non-numeric strings) and stable sorting

  /** Byte-wise lexicographic order, as `strcmp` and `<=>` compare non-numeric strings. */
  predicate StrLe(a: string, b: string)
  {
    a == [] || (b != [] && (a[0] < b[0] || (a[0] == b[0] && StrLe(a[1..], b[1..]))))
  }

  lemma {:induction false} StrLeTotal(a: string, b: string)
    ensures StrLe(a, b) || StrLe(b, a)
  {
    if a != [] && b != [] && a[0] == b[0] {
      StrLeTotal(a[1..], b[1..]);
    }
  }

  lemma {:induction false} StrLeRefl(a: string)
    ensures StrLe(a, a)
  {
    if a != [] {
      StrLeRefl(a[1..]);
    }
  }

  lemma {:induction false} StrLeTrans(a: string, b: string, c: string)
    requires StrLe(a, b) && StrLe(b, c)
    ensures StrLe(a, c)
  {
    if a != [] && b != [] && c != [] && a[0] == b[0] && b[0] == c[0] {
      StrLeTrans(a[1..], b[1..], c[1..]);
    }
  }

  lemma {:induction false} StrLeAntisym(a: string, b: string)
    requires StrLe(a, b) && StrLe(b, a)
    ensures a == b
  {
    if a != [] && b != [] {
      StrLeAntisym(a[1..], b[1..]);
      assert a == [a[0]] + a[1..] && b == [b[0]] + b[1..];
    }
  }

  /** A prefix one element longer is the prefix with that element appended. */
  lemma TakeNext<T>(s: seq<T>, i: nat)
    requires i < |s|
    ensures s[..i + 1] == s[..i] + [s[i]]
  {
  }

  /** `xs` is in ascending order of `key`. */
  ghost predicate SortedBy<T>(xs: seq<T>, key: T -> string)
  {
    forall i, j :: 0 <= i < j < |xs| ==> StrLe(key(xs[i]), key(xs[j]))
  }

  /** The elements of `xs` whose key is `k`, in their order in `xs`. */
  function WithKey<T>(xs: seq<T>, key: T -> string, k: string): seq<T>
  {
    if xs == [] then []
    else (if key(xs[0]) == k then [xs[0]] else []) + WithKey(xs[1..], key, k)
  }

  /** Inserts `x` in front of the first element whose key is not smaller. */
  function InsertBy<T>(x: T, xs: seq<T>, key: T -> string): (r: seq<T>)
    requires SortedBy(xs, key)
    ensures SortedBy(r, key)
    ensures multiset(r) == multiset(xs) + multiset{x}
  {
    if xs == [] || StrLe(key(x), key(xs[0])) then
      InsertFrontSorted(x, xs, key);
      [x] + xs
    else
      StrLeTotal(key(x), key(xs[0]));
      var tail := InsertBy(x, xs[1..], key);
      assert xs == [xs[0]] + xs[1..];
      HeadBelow(x, xs, tail, key);
      ConsSorted(xs[0], tail, key);
      [xs[0]] + tail
  }

  /** The head of a sorted sequence is below every element of its tail with one more element not below it. */
  lemma HeadBelow<T>(x: T, xs: seq<T>, tail: seq<T>, key: T -> string)
    requires SortedBy(xs, key) && xs != [] && StrLe(key(xs[0]), key(x))
    requires multiset(tail) == multiset(xs[1..]) + multiset{x}
    ensures forall z | z in multiset(tail) :: StrLe(key(xs[0]), key(z))
  {
    forall z | z in multiset(tail)
      ensures StrLe(key(xs[0]), key(z))
    {
      if z != x {
        assert z in xs[1..];
        var j :| 0 <= j < |xs[1..]| && xs[1..][j] == z;
        assert xs[j + 1] == z;
      }
    }
  }

  lemma InsertFrontSorted<T>(x: T, xs: seq<T>, key: T -> string)
    requires SortedBy(xs, key)
    requires xs == [] || StrLe(key(x), key(xs[0]))
    ensures SortedBy([x] + xs, key)
  {
    var r := [x] + xs;
    forall i, j | 0 <= i < j < |r|
      ensures StrLe(key(r[i]), key(r[j]))
    {
      if i == 0 && j > 1 {
        StrLeTrans(key(x), key(xs[0]), key(xs[j - 1]));
      }
    }
  }

  lemma ConsSorted<T>(y: T, tail: seq<T>, key: T -> string)
    requires SortedBy(tail, key)
    requires forall z | z in multiset(tail) :: StrLe(key(y), key(z))
    ensures SortedBy([y] + tail, key)
  {
    var r := [y] + tail;
    forall i, j | 0 <= i < j < |r|
      ensures StrLe(key(r[i]), key(r[j]))
    {
      if i == 0 {
        assert r[j] in multiset(tail);
      }
    }
  }

  lemma WithKeyCons<T>(a: T, t: seq<T>, key: T -> string, k: string)
    ensures WithKey([a] + t, key, k) == (if key(a) == k then [a] else []) + WithKey(t, key, k)
  {
    assert ([a] + t)[1..] == t;
  }

  /** Inserting `x` adds it to the group of its own key, in front, and leaves the other groups alone. */
  lemma {:induction false} InsertByWithKey<T>(x: T, xs: seq<T>, key: T -> string, k: string)
    requires SortedBy(xs, key)
    ensures WithKey(InsertBy(x, xs, key), key, k) == (if key(x) == k then [x] else []) + WithKey(xs, key, k)
  {
    if xs == [] || StrLe(key(x), key(xs[0])) {
      WithKeyCons(x, xs, key, k);
    } else {
      var tail := InsertBy(x, xs[1..], key);
      assert InsertBy(x, xs, key) == [xs[0]] + tail;
      InsertByWithKey(x, xs[1..], key, k);
      WithKeyCons(xs[0], tail, key, k);
      WithKeyCons(xs[0], xs[1..], key, k);
      assert [xs[0]] + xs[1..] == xs;
      StrLeRefl(key(x));
      var a := if key(xs[0]) == k then [xs[0]] else [];
      var b := if key(x) == k then [x] else [];
      assert a == [] || b == [];
      var w := WithKey(xs[1..], key, k);
      assert a + (b + w) == b + (a + w);
    }
  }

  /**
   * PHP 8's stable sort (`uasort` with `$a <=> $b` on string keys, `asort`):
   * ascending by key and a permutation of the input.
   */
  function StableSortBy<T>(xs: seq<T>, key: T -> string): (r: seq<T>)
    ensures SortedBy(r, key)
    ensures multiset(r) == multiset(xs)
  {
    if xs == [] then []
    else
      assert xs == [xs[0]] + xs[1..];
      InsertBy(xs[0], StableSortBy(xs[1..], key), key)
  }

  /** Stability: the elements sharing a key keep their relative order. */
  lemma {:induction false} StableSortByIsStable<T>(xs: seq<T>, key: T -> string, k: string)
    ensures WithKey(StableSortBy(xs, key), key, k) == WithKey(xs, key, k)
  {
    if xs != [] {
      StableSortByIsStable(xs[1..], key, k);
      InsertByWithKey(xs[0], StableSortBy(xs[1..], key), key, k);
    }
  }
}
