/**
 * Python's `int(text)` on an already stripped token, `str(n)` for an
 * integer, and `int(x)` on a float, which truncates toward zero.
 */
module Decimal {
  import opened Wrappers

  predicate IsDigit(c: char) {
    '0' <= c <= '9'
  }

  predicate AllDigits(s: string) {
    forall i :: 0 <= i < |s| ==> IsDigit(s[i])
  }

  function DigitChar(d: nat): char
    requires d < 10
  {
    ('0' as int + d) as char
  }

  /** The value of a run of decimal digits, most significant first. */
  function DigitsValue(s: string): nat
    requires AllDigits(s)
  {
    if s == [] then 0
    else DigitsValue(s[..|s| - 1]) * 10 + (s[|s| - 1] as int - '0' as int)
  }

  /** `str(n)` for n >= 0: the shortest decimal digits of n. */
  function NatToString(n: nat): (s: string)
    ensures |s| >= 1 && AllDigits(s)
    ensures |s| > 1 ==> s[0] != '0'
  {
    if n < 10 then [DigitChar(n)] else NatToString(n / 10) + [DigitChar(n % 10)]
  }

  /** `str(n)` */
  function IntToString(n: int): (s: string)
    ensures |s| >= 1
    ensures forall i :: 0 <= i < |s| ==> IsDigit(s[i]) || (i == 0 && s[i] == '-')
  {
    if n < 0 then "-" + NatToString(-n) else NatToString(n)
  }

  /** An optional sign followed by at least one ASCII digit. */
  predicate IsNumeral(t: string) {
    || (|t| >= 1 && AllDigits(t))
    || (|t| >= 2 && (t[0] == '-' || t[0] == '+') && AllDigits(t[1..]))
  }

  /**
   * `int(token)` for a token `strip()` has already trimmed, restricted to
   * ASCII: an optional sign and at least one ASCII digit give a number,
   * anything else is None (ValueError). Python also accepts underscores
   * between digits and non-ASCII decimal digits; this model does not.
   */
  function ParseInt(token: string): (r: Option<int>)
    ensures r.Some? <==> IsNumeral(token)
    ensures r.Some? && r.value < 0 ==> token[0] == '-'
  {
    if |token| >= 2 && (token[0] == '-' || token[0] == '+') && AllDigits(token[1..]) then
      var v: int := DigitsValue(token[1..]);
      Some(if token[0] == '-' then -v else v)
    else if |token| >= 1 && AllDigits(token) then Some(DigitsValue(token))
    else None
  }

  /** Reading back the digits `str` writes gives the number. */
  lemma {:induction false} NatDigitsRoundTrip(n: nat)
    ensures DigitsValue(NatToString(n)) == n
  {
    if n >= 10 {
      NatDigitsRoundTrip(n / 10);
      var s := NatToString(n);
      assert s[..|s| - 1] == NatToString(n / 10);
    }
  }

  /** `int(str(n)) == n` for every integer. */
  lemma {:induction false} IntRoundTrip(n: int)
    ensures ParseInt(IntToString(n)) == Some(n)
  {
    var s := IntToString(n);
    if n < 0 {
      var d := NatToString(-n);
      NatDigitsRoundTrip(-n);
      assert s == "-" + d;
      assert s[1..] == d;
      var v: int := DigitsValue(d);
      assert ParseInt(s) == Some(-v);
    } else {
      var d := NatToString(n);
      NatDigitsRoundTrip(n);
      assert s == d && IsDigit(s[0]);
      assert ParseInt(s) == Some(DigitsValue(d));
    }
  }

  /** `int(x)` for a float x: truncation toward zero. */
  function Trunc(x: real): (r: int)
    ensures x >= 0.0 ==> r as real <= x < r as real + 1.0
    ensures x < 0.0 ==> r as real - 1.0 < x <= r as real
  {
    if x >= 0.0 then x.Floor else -((-x).Floor)
  }

  /** A channel in [0, 1] scaled by 255 and truncated lands in [0, 255]. */
  lemma {:induction false} ChannelInRange(c: real)
    requires 0.0 <= c <= 1.0
    ensures 0 <= Trunc(c * 255.0) <= 255
  {
  }
}
