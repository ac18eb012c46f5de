/**
 * String helpers shared by the browser client and the Flask backend:
 * whitespace trimming as JavaScript and Python each define it, the ASCII
 * case folding SQLite applies in LIKE, decimal rendering of integers,
 * Python's int() on a string, and splitting on a separator.
 */
module Text {
  import opened Wrappers

  /** The runtime whose notion of whitespace a trim follows. */
  datatype Runtime =
    | Js  // String.prototype.trim: WhiteSpace and LineTerminator
    | Py  // str.strip(): characters for which str.isspace() holds

  /** Whitespace that JavaScript and Python agree on. */
  predicate IsCommonSpace(c: char) {
    || c == '\t' || c == '\n' || c == '\U{B}' || c == '\U{C}' || c == '\r' || c == ' '
    || c == '\U{A0}' || c == '\U{1680}' || ('\U{2000}' <= c <= '\U{200A}')
    || c == '\U{2028}' || c == '\U{2029}' || c == '\U{202F}' || c == '\U{205F}' || c == '\U{3000}'
  }

  /** JavaScript also trims the byte-order mark; Python also strips the
      information separators U+001C..U+001F and NEXT LINE U+0085. */
  predicate IsSpace(c: char, rt: Runtime) {
    IsCommonSpace(c) ||
    match rt
    case Js => c == '\U{FEFF}'
    case Py => ('\U{1C}' <= c <= '\U{1F}') || c == '\U{85}'
  }

  predicate AllSpace(s: string, rt: Runtime) {
    forall i :: 0 <= i < |s| ==> IsSpace(s[i], rt)
  }

  /** Neither end of s is whitespace. */
  predicate IsTrimmed(s: string, rt: Runtime) {
    s != [] ==> !IsSpace(s[0], rt) && !IsSpace(s[|s| - 1], rt)
  }

  /** The length of the whitespace run that starts s. */
  function Leading(s: string, rt: Runtime): (n: nat)
    ensures n <= |s|
    ensures forall i :: 0 <= i < n ==> IsSpace(s[i], rt)
    ensures n < |s| ==> !IsSpace(s[n], rt)
  {
    if |s| == 0 || !IsSpace(s[0], rt) then 0 else 1 + Leading(s[1..], rt)
  }

  /** The length of the whitespace run that ends s. */
  function Trailing(s: string, rt: Runtime): (n: nat)
    ensures n <= |s|
    ensures forall i :: |s| - n <= i < |s| ==> IsSpace(s[i], rt)
    ensures n < |s| ==> !IsSpace(s[|s| - 1 - n], rt)
  {
    if |s| == 0 || !IsSpace(s[|s| - 1], rt) then 0 else 1 + Trailing(s[..|s| - 1], rt)
  }

  /** Whitespace removed from both ends, by the rules of runtime rt: the
      result is the slice of s between a whitespace prefix and a whitespace
      suffix, and has no whitespace at either end. */
  function Trim(s: string, rt: Runtime): (r: string)
    ensures IsTrimmed(r, rt)
    ensures Leading(s, rt) + |r| <= |s|
    ensures r == s[Leading(s, rt)..Leading(s, rt) + |r|]
    ensures forall i :: 0 <= i < Leading(s, rt) ==> IsSpace(s[i], rt)
    ensures forall i :: Leading(s, rt) + |r| <= i < |s| ==> IsSpace(s[i], rt)
    ensures r == [] <==> AllSpace(s, rt)
  {
    var lo := Leading(s, rt);
    if lo == |s| then []
    else
      var hi := |s| - Trailing(s, rt);
      assert lo < hi;
      s[lo..hi]
  }

  /** Trimming a string that has no whitespace at either end changes nothing. */
  lemma TrimOfTrimmed(s: string, rt: Runtime)
    requires IsTrimmed(s, rt)
    ensures Trim(s, rt) == s
  {
    if s != [] {
      assert Leading(s, rt) == 0;
      assert Trailing(s, rt) == 0;
      assert s[0..|s|] == s;
    }
  }

  /** Trim is idempotent: the server stripping a value the client already
      trimmed (with the same whitespace rules) gets the same value back. */
  lemma TrimIdempotent(s: string, rt: Runtime)
    ensures Trim(Trim(s, rt), rt) == Trim(s, rt)
  {
    TrimOfTrimmed(Trim(s, rt), rt);
  }

  /** When the ends of a JavaScript-trimmed string are not among the
      characters only Python strips, Python's strip leaves it as it is. */
  lemma StripAfterTrim(s: string)
    requires var t := Trim(s, Js); t != [] ==> !IsSpace(t[0], Py) && !IsSpace(t[|t| - 1], Py)
    ensures Trim(Trim(s, Js), Py) == Trim(s, Js)
  {
    TrimOfTrimmed(Trim(s, Js), Py);
  }

  // ----- ASCII case folding (SQLite's lower() and LIKE without ICU) -----

  function FoldChar(c: char): (d: char)
    ensures 'A' <= c <= 'Z' ==> d as int == c as int + 32
    ensures !('A' <= c <= 'Z') ==> d == c
    ensures !('A' <= d <= 'Z')
  {
    if 'A' <= c <= 'Z' then (c as int + 32) as char else c
  }

  function Fold(s: string): (r: string)
    ensures |r| == |s|
    ensures forall i :: 0 <= i < |s| ==> r[i] == FoldChar(s[i])
  {
    seq(|s|, i requires 0 <= i < |s| => FoldChar(s[i]))
  }

  /** Equal up to ASCII letter case, as SQLite's ILIKE without wildcards. */
  predicate SameIgnoringCase(a: string, b: string) {
    Fold(a) == Fold(b)
  }

  /** needle occurs in hay as a contiguous block. */
  predicate HasSubstring(hay: string, needle: string) {
    exists i :: 0 <= i <= |hay| - |needle| && OccursAt(hay, needle, i)
  }

  predicate OccursAt(hay: string, needle: string, i: int) {
    0 <= i && i + |needle| <= |hay| && hay[i..i + |needle|] == needle
  }

  /** title ILIKE '%query%': the query occurs in the title up to ASCII case. */
  predicate ContainsIgnoringCase(title: string, query: string) {
    HasSubstring(Fold(title), Fold(query))
  }

  // ----- Decimal numerals -----

  predicate IsDigit(c: char) {
    '0' <= c <= '9'
  }

  predicate AllDigits(s: string) {
    forall i :: 0 <= i < |s| ==> IsDigit(s[i])
  }

  function DigitChar(d: nat): (c: char)
    requires d < 10
    ensures IsDigit(c) && c as int - '0' as int == d
  {
    ('0' as int + d) as char
  }

  /** The value of a string of decimal digits. */
  function DigitsValue(s: string): nat
    requires AllDigits(s)
  {
    if |s| == 0 then 0 else DigitsValue(s[..|s| - 1]) * 10 + (s[|s| - 1] as int - '0' as int)
  }

  /** The shortest decimal numeral of n, as JavaScript's template literals
      and Python's str() write a non-negative integer. */
  function Decimal(n: nat): (r: string)
    ensures |r| >= 1 && AllDigits(r)
  {
    if n < 10 then [DigitChar(n)] else Decimal(n / 10) + [DigitChar(n % 10)]
  }

  /** An integer as text, with a leading '-' when negative. */
  function IntText(i: int): (r: string)
    ensures |r| >= 1
    ensures i >= 0 <==> AllDigits(r)
  {
    if i < 0 then
      var r := "-" + Decimal(-i);
      assert !IsDigit(r[0]);
      r
    else
      Decimal(i)
  }

  lemma {:induction false} DecimalValue(n: nat)
    ensures DigitsValue(Decimal(n)) == n
  {
    var r := Decimal(n);
    if n >= 10 {
      DecimalValue(n / 10);
      assert r[..|r| - 1] == Decimal(n / 10);
    }
  }

  /** Python's int() applied to a string: surrounding whitespace allowed, an
      optional sign, then one or more ASCII digits. */
  function ParseInt(s: string): (r: Option<int>)
    ensures r.Some? <==>
      var t := Trim(s, Py);
      var body := if |t| > 0 && (t[0] == '-' || t[0] == '+') then t[1..] else t;
      |body| > 0 && AllDigits(body)
  {
    var t := Trim(s, Py);
    var negative := |t| > 0 && t[0] == '-';
    var body := if |t| > 0 && (t[0] == '-' || t[0] == '+') then t[1..] else t;
    if |body| > 0 && AllDigits(body) then
      var magnitude: int := DigitsValue(body);
      Some(if negative then -magnitude else magnitude)
    else
      None
  }

  /** Round trip: Python's int() reads back what IntText writes. */
  lemma IntTextRoundTrip(i: int)
    ensures ParseInt(IntText(i)) == Some(i)
  {
    if i < 0 {
      NegativeRoundTrip(i);
    } else {
      NonNegativeRoundTrip(i);
    }
  }

  lemma NonNegativeRoundTrip(n: nat)
    ensures ParseInt(IntText(n)) == Some(n as int)
  {
    var d := Decimal(n);
    NumeralTrimmed(d);
    TrimOfTrimmed(d, Py);
    assert d[0] != '-' && d[0] != '+' by { assert IsDigit(d[0]); }
    DecimalValue(n);
  }

  lemma NegativeRoundTrip(i: int)
    requires i < 0
    ensures ParseInt(IntText(i)) == Some(i)
  {
    var s := IntText(i);
    assert s == "-" + Decimal(-i);
    SignedNumeral(-i);
    TrimOfTrimmed(s, Py);
    DecimalValue(-i);
  }

  lemma SignedNumeral(n: nat)
    ensures var s := "-" + Decimal(n);
            IsTrimmed(s, Py) && s[0] == '-' && s[1..] == Decimal(n)
  {
    var d := Decimal(n);
    var s := "-" + d;
    assert s[|s| - 1] == d[|d| - 1];
    assert IsDigit(d[|d| - 1]);
  }

  /** A numeral has no whitespace at its ends. */
  lemma NumeralTrimmed(d: string)
    requires |d| >= 1 && AllDigits(d)
    ensures IsTrimmed(d, Py)
  {
    assert IsDigit(d[0]) && IsDigit(d[|d| - 1]);
  }

  // ----- Splitting on a separator -----

  function Split(s: string, sep: char): (parts: seq<string>)
    ensures |parts| >= 1
    ensures forall k :: 0 <= k < |parts| ==> sep !in parts[k]
  {
    if |s| == 0 then [""]
    else
      var rest := Split(s[1..], sep);
      if s[0] == sep then [""] + rest else [[s[0]] + rest[0]] + rest[1..]
  }

  function Join(parts: seq<string>, sep: char): string
    requires |parts| >= 1
  {
    if |parts| == 1 then parts[0] else parts[0] + [sep] + Join(parts[1..], sep)
  }

  lemma {:induction false} SplitPrefix(p: string, rest: string, sep: char)
    requires sep !in p
    ensures Split(p + rest, sep) == [p + Split(rest, sep)[0]] + Split(rest, sep)[1..]
  {
    if p != [] {
      assert (p + rest)[1..] == p[1..] + rest;
      SplitPrefix(p[1..], rest, sep);
      assert [p[0]] + (p[1..] + Split(rest, sep)[0]) == p + Split(rest, sep)[0];
    } else {
      assert p + rest == rest;
      assert p + Split(rest, sep)[0] == Split(rest, sep)[0];
      assert [p + Split(rest, sep)[0]] + Split(rest, sep)[1..] == Split(rest, sep);
    }
  }

  /** Splitting a join gives the parts back, when no part holds the separator. */
  lemma {:induction false} SplitJoin(parts: seq<string>, sep: char)
    requires |parts| >= 1
    requires forall k :: 0 <= k < |parts| ==> sep !in parts[k]
    ensures Split(Join(parts, sep), sep) == parts
  {
    if |parts| == 1 {
      SplitPrefix(parts[0], "", sep);
      assert parts[0] + "" == parts[0];
    } else {
      var tail := Join(parts[1..], sep);
      SplitJoin(parts[1..], sep);
      assert parts[0] + [sep] + tail == parts[0] + ([sep] + tail);
      SplitPrefix(parts[0], [sep] + tail, sep);
      assert ([sep] + tail)[1..] == tail;
      assert parts[0] + "" == parts[0];
      assert [parts[0]] + parts[1..] == parts;
    }
  }

  /** The position of the first c in s, if any. */
  function FirstIndex(s: string, c: char): (r: Option<nat>)
    ensures r.Some? <==> c in s
    ensures r.Some? ==> r.value < |s| && s[r.value] == c && c !in s[..r.value]
  {
    if |s| == 0 then None
    else if s[0] == c then Some(0)
    else
      match FirstIndex(s[1..], c)
      case None => None
      case Some(k) =>
        assert s[..k + 1] == [s[0]] + s[1..][..k];
        Some(k + 1)
  }
}
