/** Text helpers shared by the request and response sides: ASCII case folding
    (Python 2 `str.lower`), decimal printing (`str(int)`) and decimal parsing
    (`int(str)`). */
module Text {
  import opened Wrappers

  function LowerChar(c: char): char {
    if 'A' <= c <= 'Z' then (c as int + 32) as char else c
  }

  /** `s.lower()` on a byte string: only the ASCII capitals change. */
  function Lower(s: string): (r: string)
    ensures |r| == |s|
  {
    seq(|s|, i requires 0 <= i < |s| => LowerChar(s[i]))
  }

  predicate IsDigit(c: char) {
    '0' <= c <= '9'
  }

  predicate AllDigits(s: string) {
    forall i :: 0 <= i < |s| ==> IsDigit(s[i])
  }

  /** The whitespace that Python 2's `int()` strips around a numeral. */
  predicate IsSpace(c: char) {
    c == ' ' || c == '\t' || c == '\n' || c == '\r' || c == '\U{000B}' || c == '\U{000C}'
  }

  function DigitChar(d: nat): (c: char)
    requires d < 10
    ensures IsDigit(c)
  {
    ('0' as int + d) as char
  }

  /** The decimal numeral of `n`, as `str(n)` prints a non-negative int. */
  function Decimal(n: nat): (r: string)
    ensures |r| > 0 && AllDigits(r)
  {
    if n < 10 then [DigitChar(n)] else Decimal(n / 10) + [DigitChar(n % 10)]
  }

  /** `str(n)` for any int. */
  function IntText(n: int): (r: string)
    ensures |r| > 0
  {
    if n < 0 then "-" + Decimal(-n) else Decimal(n)
  }

  /** The value of a string of decimal digits, most significant first. */
  function DigitsValue(s: string): nat
    requires AllDigits(s)
  {
    if s == [] then 0 else DigitsValue(s[..|s| - 1]) * 10 + (s[|s| - 1] as int - '0' as int)
  }

  function TrimLeft(s: string): (r: string)
    ensures |r| <= |s| && r == s[|s| - |r|..]
    ensures r != [] ==> !IsSpace(r[0])
  {
    if s != [] && IsSpace(s[0]) then TrimLeft(s[1..]) else s
  }

  function TrimRight(s: string): (r: string)
    ensures |r| <= |s| && r == s[..|r|]
    ensures r != [] ==> !IsSpace(r[|r| - 1])
  {
    if s != [] && IsSpace(s[|s| - 1]) then TrimRight(s[..|s| - 1]) else s
  }

  /** A numeral after trimming: one optional sign, whitespace after the sign,
      then at least one digit. */
  function ParseNumeral(t: string): (r: Option<int>)
    ensures r.Some? ==> exists i :: 0 <= i < |t| && IsDigit(t[i])
  {
    var signed := t != [] && (t[0] == '-' || t[0] == '+');
    var digits := if signed then TrimLeft(t[1..]) else t;
    if digits != [] && AllDigits(digits) then
      assert IsDigit(t[|t| - |digits|]);
      var v: int := DigitsValue(digits);
      Some(if signed && t[0] == '-' then -v else v)
    else None
  }

  /** `int(s)` on a string in base 10: surrounding whitespace is ignored, then
      one optional sign, whitespace, and at least one digit; anything else is a
      ValueError (None). */
  function ParseInt(s: string): (r: Option<int>)
    ensures r.Some? ==> exists i :: 0 <= i < |s| && IsDigit(s[i])
  {
    var l := TrimLeft(s);
    var t := TrimRight(l);
    var r := ParseNumeral(t);
    if r.Some? then
      var i :| 0 <= i < |t| && IsDigit(t[i]);
      assert t[i] == s[|s| - |l| + i];
      r
    else r
  }

  lemma {:induction false} DecimalValue(n: nat)
    ensures DigitsValue(Decimal(n)) == n
  {
    if n >= 10 {
      var d := Decimal(n);
      assert d[..|d| - 1] == Decimal(n / 10);
      DecimalValue(n / 10);
    }
  }

  lemma TrimNoSpace(s: string)
    requires s != [] && !IsSpace(s[0]) && !IsSpace(s[|s| - 1])
    ensures TrimRight(TrimLeft(s)) == s
  {
  }

  /** The numeral `str(n)` prints reads back as `n`. */
  lemma NumeralRoundTrip(n: int)
    ensures ParseNumeral(IntText(n)) == Some(n)
  {
    var t := IntText(n);
    if n < 0 {
      assert t[0] == '-' && t[1..] == Decimal(-n);
      assert IsDigit(t[1..][0]);
      DecimalValue(-n);
    } else {
      assert IsDigit(t[0]);
      DecimalValue(n);
    }
  }

  /** Printing an int and reading it back with `int()` gives the same int. */
  lemma IntTextRoundTrip(n: int)
    ensures ParseInt(IntText(n)) == Some(n)
  {
    var t := IntText(n);
    var d := if n < 0 then Decimal(-n) else Decimal(n);
    assert t[|t| - 1] == d[|d| - 1];
    TrimNoSpace(t);
    NumeralRoundTrip(n);
  }
}
