/**
  Decimal rendering of integers, as Go's `fmt.Sprint` prints an `int`:
  an optional minus sign followed by the digits of the magnitude, with no
  leading zeros. A parser is given as the partner of the printer.
 */
module Decimal {
  import opened Optional

  predicate IsDigit(c: char)
  {
    '0' <= c <= '9'
  }

  predicate AllDigits(s: string)
  {
    forall i :: 0 <= i < |s| ==> IsDigit(s[i])
  }

  function DigitChar(d: nat): (c: char)
    requires d < 10
    ensures IsDigit(c)
    ensures c as int - '0' as int == d
  {
    ('0' as int + d) as char
  }

  /** The digits of `n`, most significant first. */
  function ShowNat(n: nat): (s: string)
    ensures 0 < |s|
    ensures AllDigits(s)
    ensures |s| > 1 ==> s[0] != '0'
    decreases n
  {
    if n < 10 then [DigitChar(n)] else ShowNat(n / 10) + [DigitChar(n % 10)]
  }

  /** `fmt.Sprint` of an `int`. */
  function Show(n: int): (s: string)
    ensures 0 < |s|
    ensures n >= 0 ==> AllDigits(s)
    ensures n < 0 ==> s[0] == '-' && AllDigits(s[1..])
  {
    if n < 0 then "-" + ShowNat(-n) else ShowNat(n)
  }

  /** The value of a run of digits; the empty run is 0. */
  function ParseNat(s: string): nat
    requires AllDigits(s)
    decreases |s|
  {
    if |s| == 0 then 0
    else ParseNat(s[..|s| - 1]) * 10 + (s[|s| - 1] as int - '0' as int)
  }

  /** Reads back what `Show` prints; `None` for anything else. */
  function Parse(s: string): Option<int>
  {
    if 0 < |s| && s[0] == '-' && 1 < |s| && AllDigits(s[1..]) then Some(0 - ParseNat(s[1..]) as int)
    else if 0 < |s| && AllDigits(s) then Some(ParseNat(s) as int)
    else None
  }

  lemma {:induction false} ParseShowNat(n: nat)
    ensures ParseNat(ShowNat(n)) == n
    decreases n
  {
    if n >= 10 {
      var s := ShowNat(n);
      assert s[..|s| - 1] == ShowNat(n / 10);
      ParseShowNat(n / 10);
    }
  }

  /** Printing then parsing gives back the integer. */
  lemma ParseShow(n: int)
    ensures Parse(Show(n)) == Some(n)
  {
    if n < 0 {
      ParseShowNat(-n);
      assert Show(n)[1..] == ShowNat(-n);
    } else {
      ParseShowNat(n);
    }
  }

  /** Distinct integers print differently. */
  lemma ShowInjective(a: int, b: int)
    requires Show(a) == Show(b)
    ensures a == b
  {
    ParseShow(a);
    ParseShow(b);
  }
}
