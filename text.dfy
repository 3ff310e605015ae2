/**
 * The string conversions the presence payloads rely on: Python's `str()` of an
 * optional string and of an integer as an f-string renders them, and Python's
 * `int()` of a decimal string. `Split` (Python's `str.split` on one separator
 * character) is not used by the payloads; it serves to state how the URL
 * templates are read back.
 */
module Text {
  import opened Wrappers

  /** What an f-string prints for a `None` value. */
  const NoneText: string := "None"

  /** An f-string placeholder holding an optional string. */
  function PyStr(o: Option<string>): string {
    match o
    case Some(s) => s
    case None => NoneText
  }

  predicate IsDigit(c: char) {
    '0' <= c <= '9'
  }

  predicate AllDigits(s: string) {
    forall i :: 0 <= i < |s| ==> IsDigit(s[i])
  }

  function DigitValue(c: char): (d: nat)
    requires IsDigit(c)
    ensures d < 10
  {
    (c - '0') as nat
  }

  function DigitChar(d: nat): (c: char)
    requires d < 10
    ensures IsDigit(c) && DigitValue(c) == d
  {
    ('0' as int + d) as char
  }

  /** The value of a string of decimal digits, most significant digit first. */
  function DigitsValue(s: string): nat
    requires AllDigits(s)
  {
    if |s| == 0 then 0 else DigitsValue(s[..|s| - 1]) * 10 + DigitValue(s[|s| - 1])
  }

  /** Decimal digits with no leading zero: the form `str()` prints a natural number in. */
  predicate CanonicalDigits(s: string) {
    |s| > 0 && AllDigits(s) && (|s| > 1 ==> s[0] != '0')
  }

  /** The form `str()` prints an `int` in: a minus sign only before the digits of a non-zero number. */
  predicate CanonicalInt(s: string) {
    if |s| > 0 && s[0] == '-' then CanonicalDigits(s[1..]) && s[1..] != "0" else CanonicalDigits(s)
  }

  /** Decimal digits of `n` as `str(n)` prints them: no leading zero. */
  function NatToString(n: nat): (s: string)
    ensures CanonicalDigits(s)
    ensures s[0] == '0' ==> n == 0
  {
    if n < 10 then [DigitChar(n)] else NatToString(n / 10) + [DigitChar(n % 10)]
  }

  /** `str(i)` for a Python `int`: a minus sign before the digits of a negative number. */
  function IntToString(i: int): (s: string)
    ensures CanonicalInt(s)
    ensures s[0] == '-' <==> i < 0
  {
    if i < 0 then "-" + NatToString(-i) else NatToString(i)
  }

  /**
   * `int(s)` for a decimal string: an optional sign followed by at least one
   * ASCII digit (leading zeros allowed). `None` stands for the `ValueError`
   * Python raises on any other string.
   */
  function ParseInt(s: string): Option<int> {
    if |s| > 0 && (s[0] == '-' || s[0] == '+') then
      var digits := s[1..];
      if |digits| > 0 && AllDigits(digits) then
        var magnitude: int := DigitsValue(digits);
        Some(if s[0] == '-' then -magnitude else magnitude)
      else None
    else if |s| > 0 && AllDigits(s) then Some(DigitsValue(s))
    else None
  }

  /** Reading back the digits `str(n)` prints gives `n`. */
  lemma {:induction false} NatToStringValue(n: nat)
    ensures DigitsValue(NatToString(n)) == n
  {
    if n >= 10 {
      var s := NatToString(n);
      NatToStringValue(n / 10);
      assert s[..|s| - 1] == NatToString(n / 10);
    }
  }

  /**
   * `int(str(i)) == i` for every Python `int` (CPython's limit of 4300 digits
   * on these conversions is not modelled).
   */
  lemma ParseIntOfIntToString(i: int)
    ensures ParseInt(IntToString(i)) == Some(i)
  {
    var s := IntToString(i);
    if i < 0 {
      var digits := NatToString(-i);
      assert s[0] == '-' && s[1..] == digits;
      NatToStringValue(-i);
    } else {
      assert s[0] != '-' && s[0] != '+';
      NatToStringValue(i);
    }
  }

  /** A string of digits with a non-zero first digit has a positive value. */
  lemma {:induction false} LeadingDigitPositive(d: string)
    requires |d| > 0 && AllDigits(d) && d[0] != '0'
    ensures DigitsValue(d) > 0
  {
    if |d| > 1 {
      LeadingDigitPositive(d[..|d| - 1]);
    }
  }

  /** Printing the value of canonical digits gives those digits back. */
  lemma {:induction false} NatToStringOfDigits(d: string)
    requires CanonicalDigits(d)
    ensures NatToString(DigitsValue(d)) == d
  {
    var last := d[|d| - 1];
    if |d| == 1 {
      assert d == [last];
    } else {
      var init := d[..|d| - 1];
      LeadingDigitPositive(init);
      NatToStringOfDigits(init);
      var v := DigitsValue(d);
      assert v / 10 == DigitsValue(init) && v % 10 == DigitValue(last);
      assert d == init + [last];
    }
  }

  /**
   * A canonical integer text is exactly what `str()` prints for the value
   * `int()` reads from it, so value and canonical form together fix the text.
   */
  lemma CanonicalIntIsIntToString(s: string)
    requires CanonicalInt(s)
    ensures ParseInt(s).Some? && s == IntToString(ParseInt(s).value)
  {
    if s[0] == '-' {
      var digits := s[1..];
      assert digits[0] != '0';
      LeadingDigitPositive(digits);
      NatToStringOfDigits(digits);
      assert s == "-" + digits;
    } else {
      NatToStringOfDigits(s);
    }
  }

  /** `str(i)` never contains a path separator. */
  lemma NoSlashInIntToString(i: int)
    ensures '/' !in IntToString(i)
  {
  }

  /** `s.split(sep)` in Python: the pieces between separators, empty ones included. */
  function Split(s: string, sep: char): (r: seq<string>)
    ensures |r| > 0
  {
    if |s| == 0 then [""]
    else if s[0] == sep then [""] + Split(s[1..], sep)
    else
      var rest := Split(s[1..], sep);
      [[s[0]] + rest[0]] + rest[1..]
  }

  /** A string without the separator splits into itself alone. */
  lemma {:induction false} SplitWithoutSeparator(s: string, sep: char)
    requires sep !in s
    ensures Split(s, sep) == [s]
  {
    if |s| > 0 {
      SplitWithoutSeparator(s[1..], sep);
      assert [s[0]] + s[1..] == s;
    }
  }

  /** Splitting `a + sep + b`, where `a` holds no separator, yields `a` and then the pieces of `b`. */
  lemma {:induction false} SplitAfterPiece(a: string, sep: char, b: string)
    requires sep !in a
    ensures Split(a + [sep] + b, sep) == [a] + Split(b, sep)
  {
    if |a| == 0 {
      assert a + [sep] + b == [sep] + b;
      assert ([sep] + b)[1..] == b;
    } else {
      var s := a + [sep] + b;
      assert s[0] == a[0] && s[1..] == a[1..] + [sep] + b;
      SplitAfterPiece(a[1..], sep, b);
      assert [a[0]] + a[1..] == a;
    }
  }

  /** Splitting at the first separator, found at position `n`. */
  lemma SplitAtFirst(s: string, sep: char, n: nat)
    requires n < |s| && s[n] == sep && sep !in s[..n]
    ensures Split(s, sep) == [s[..n]] + Split(s[n + 1..], sep)
  {
    assert s == s[..n] + [sep] + s[n + 1..];
    SplitAfterPiece(s[..n], sep, s[n + 1..]);
  }
}
