/**
 * Decimal numerals as Python writes them with `str(n)` and reads them back
 * with `int(s)`. The key-value store keeps rate-limit counters as such
 * strings, and conversation keys embed user ids written this way.
 */
module Decimal {
  import opened Prelude

  predicate IsDigit(c: char)
  {
    '0' <= c <= '9'
  }

  predicate AllDigits(s: string)
  {
    forall i :: 0 <= i < |s| ==> IsDigit(s[i])
  }

  function DigitChar(d: nat): (c: char)
    requires d < 10
    ensures IsDigit(c) && c as int - '0' as int == d
  {
    ('0' as int + d) as char
  }

  /** The number a string of digits denotes, most significant digit first. */
  function DigitsValue(s: string): (v: nat)
    requires AllDigits(s)
  {
    if s == [] then 0 else 10 * DigitsValue(s[..|s| - 1]) + (s[|s| - 1] as int - '0' as int)
  }

  /** `str(n)` for n >= 0: the shortest numeral, so "0" for zero and no leading zeros. */
  function NatToString(n: nat): (s: string)
    ensures |s| >= 1 && AllDigits(s)
    ensures |s| > 1 ==> s[0] != '0'
  {
    if n < 10 then [DigitChar(n)] else NatToString(n / 10) + [DigitChar(n % 10)]
  }

  /** `str(n)` for any integer: a minus sign before the numeral of a negative number. */
  function IntToString(n: int): (s: string)
    ensures |s| >= 1
    ensures forall i :: 0 <= i < |s| ==> s[i] == '-' || IsDigit(s[i])
  {
    if n < 0 then "-" + NatToString(-n) else NatToString(n)
  }

  /**
   * `int(s)`: an optional sign followed by at least one digit; `None` where
   * Python raises ValueError.
   */
  function ParseInt(s: string): (r: Option<int>)
    ensures r.Some? <==>
              (|s| >= 1 && AllDigits(s))
              || (|s| >= 2 && (s[0] == '-' || s[0] == '+') && AllDigits(s[1..]))
  {
    if |s| >= 2 && s[0] == '-' && AllDigits(s[1..]) then Some(-(DigitsValue(s[1..]) as int))
    else if |s| >= 2 && s[0] == '+' && AllDigits(s[1..]) then Some(DigitsValue(s[1..]))
    else if |s| >= 1 && AllDigits(s) then Some(DigitsValue(s))
    else None
  }

  /**
   * Whether `json.loads` reads the string as an integer: an optional minus
   * sign, then "0" or digits with no leading zero.
   */
  predicate IsJsonInteger(s: string)
  {
    var d := if |s| >= 1 && s[0] == '-' then s[1..] else s;
    |d| >= 1 && AllDigits(d) && (|d| == 1 || d[0] != '0')
  }

  /**
   * `str(n)` is always a JSON integer, and a JSON integer is always a
   * numeral `int` accepts.
   */
  lemma JsonIntegerNumerals(n: int, s: string)
    ensures IsJsonInteger(IntToString(n))
    ensures IsJsonInteger(s) ==> ParseInt(s).Some?
  {
    if n < 0 {
      assert IntToString(n)[1..] == NatToString(-n);
    }
  }

  lemma {:induction false} NatToStringValue(n: nat)
    ensures DigitsValue(NatToString(n)) == n
  {
    var s := NatToString(n);
    if n < 10 {
      assert s[..|s| - 1] == [];
    } else {
      var p := NatToString(n / 10);
      assert s[..|s| - 1] == p;
      NatToStringValue(n / 10);
    }
  }

  /** `int(str(n)) == n`: a counter written back by `incr` reads as the same number. */
  lemma IntRoundTrip(n: int)
    ensures ParseInt(IntToString(n)) == Some(n)
  {
    if n < 0 {
      var d := NatToString(-n);
      assert ("-" + d)[1..] == d;
      NatToStringValue(-n);
    } else {
      NatToStringValue(n);
    }
  }

  /** Different numbers print differently. */
  lemma IntToStringInjective(m: int, n: int)
    ensures IntToString(m) == IntToString(n) <==> m == n
  {
    IntRoundTrip(m);
    IntRoundTrip(n);
  }
}
