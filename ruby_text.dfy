/** The pieces of Ruby's String and Integer behaviour that the sheet code
    relies on: ASCII character classes and `upcase`, `Integer#to_s`,
    `String#to_i` and `Array#join`. `Split` is a proof device that inverts
    `Array#join`; the gem itself never splits, and `Split` is not
    `String#split` (it keeps trailing empty pieces). */
module RubyText {

  predicate IsLower(c: char) {
    'a' <= c <= 'z'
  }

  predicate IsUpper(c: char) {
    'A' <= c <= 'Z'
  }

  /** ASCII `upcase` of one character; every other character is left alone. */
  function Upcase(c: char): (u: char)
    ensures IsLower(c) ==> IsUpper(u)
    ensures !IsLower(c) ==> u == c
  {
    if IsLower(c) then (c as int - 32) as char else c
  }

  predicate IsDigit(c: char) {
    '0' <= c <= '9'
  }

  function DigitChar(d: nat): (c: char)
    requires d < 10
    ensures IsDigit(c)
  {
    ('0' as int + d) as char
  }

  function DigitValue(c: char): (d: nat)
    requires IsDigit(c)
    ensures d < 10
  {
    c as int - '0' as int
  }

  predicate AllDigits(s: string) {
    forall i :: 0 <= i < |s| ==> IsDigit(s[i])
  }

  /** `Integer#to_s` for a non-negative integer: the shortest decimal numeral. */
  function DecimalString(n: nat): (s: string)
    ensures 1 <= |s| && AllDigits(s)
    ensures |s| > 1 ==> s[0] != '0'
  {
    if n < 10 then [DigitChar(n)] else DecimalString(n / 10) + [DigitChar(n % 10)]
  }

  /** The value of a numeral, most significant digit first. */
  function NumeralValue(s: string): nat
    requires AllDigits(s)
  {
    if s == [] then 0 else NumeralValue(s[..|s| - 1]) * 10 + DigitValue(s[|s| - 1])
  }

  /** Number of leading decimal digits of `s`. */
  function LeadingDigits(s: string): (n: nat)
    ensures n <= |s| && AllDigits(s[..n])
    ensures n < |s| ==> !IsDigit(s[n])
  {
    if s == [] || !IsDigit(s[0]) then 0
    else
      var n := 1 + LeadingDigits(s[1..]);
      assert s[..n] == [s[0]] + s[1..][..n - 1];
      n
  }

  /** `String#to_i` (base 10): an optional sign, then the longest run of
      digits; a string with no leading numeral reads as 0. */
  function StrToI(s: string): int {
    if |s| > 0 && (s[0] == '-' || s[0] == '+') then
      var body := s[1..];
      var v: int := NumeralValue(body[..LeadingDigits(body)]);
      if s[0] == '-' then -v else v
    else
      NumeralValue(s[..LeadingDigits(s)])
  }

  lemma {:induction false} NumeralValueOfDecimal(n: nat)
    ensures NumeralValue(DecimalString(n)) == n
  {
    if n >= 10 {
      var s := DecimalString(n);
      NumeralValueOfDecimal(n / 10);
      assert s[..|s| - 1] == DecimalString(n / 10);
    }
  }

  /** `n.to_s.to_i == n`. */
  lemma StrToIInvertsDecimal(n: nat)
    ensures StrToI(DecimalString(n)) == n
  {
    var s := DecimalString(n);
    assert LeadingDigits(s) == |s| by {
      LeadingDigitsOfNumeral(s);
    }
    assert s[..|s|] == s;
    NumeralValueOfDecimal(n);
  }

  lemma {:induction false} LeadingDigitsOfNumeral(s: string)
    requires AllDigits(s)
    ensures LeadingDigits(s) == |s|
  {
    if s != [] {
      LeadingDigitsOfNumeral(s[1..]);
    }
  }

  /** A string that does not start with a sign or a digit reads as 0,
      e.g. `'Invalid id'.to_i == 0`. */
  lemma StrToINonNumeric(s: string)
    requires s == [] || !(IsDigit(s[0]) || s[0] == '-' || s[0] == '+')
    ensures StrToI(s) == 0
  {
  }

  /** `Array#join(sep)`. */
  function Join(parts: seq<string>, sep: char): string {
    if parts == [] then []
    else if |parts| == 1 then parts[0]
    else parts[0] + [sep] + Join(parts[1..], sep)
  }

  /** Split on every occurrence of `sep`, keeping empty pieces: the result
      always has one more piece than `s` has separators. */
  function Split(s: string, sep: char): (pieces: seq<string>)
    ensures |pieces| >= 1
  {
    if s == [] then [[]]
    else
      var rest := Split(s[1..], sep);
      if s[0] == sep then [[]] + rest else [[s[0]] + rest[0]] + rest[1..]
  }

  lemma {:induction false} SplitPrefix(a: string, t: string, sep: char)
    requires sep !in a
    ensures Split(a + t, sep) == [a + Split(t, sep)[0]] + Split(t, sep)[1..]
  {
    var st := Split(t, sep);
    if a == [] {
      assert a + t == t;
      assert a + st[0] == st[0];
      assert st == [st[0]] + st[1..];
    } else {
      SplitPrefix(a[1..], t, sep);
      assert (a + t)[1..] == a[1..] + t;
      assert a == [a[0]] + a[1..];
      assert [a[0]] + (a[1..] + st[0]) == a + st[0];
    }
  }

  /** Splitting a join recovers the parts when no part holds the separator. */
  lemma {:induction false} SplitJoin(parts: seq<string>, sep: char)
    requires |parts| >= 1
    requires forall i :: 0 <= i < |parts| ==> sep !in parts[i]
    ensures Split(Join(parts, sep), sep) == parts
  {
    if |parts| == 1 {
      SplitPrefix(parts[0], [], sep);
      assert parts[0] + [] == parts[0];
    } else {
      var tail := Join(parts[1..], sep);
      SplitJoin(parts[1..], sep);
      SplitPrefix(parts[0], [sep] + tail, sep);
      assert Join(parts, sep) == parts[0] + ([sep] + tail);
      assert ([sep] + tail)[1..] == tail;
      var st := Split([sep] + tail, sep);
      assert st == [[]] + parts[1..];
      assert st[0] == [] && st[1..] == parts[1..];
      assert parts[0] + st[0] == parts[0];
      assert parts == [parts[0]] + parts[1..];
    }
  }
}
