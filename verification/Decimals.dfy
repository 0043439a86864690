/** Decimal numerals: printed as JavaScript prints a non-negative integer, read back digit by digit. */
module Decimals {
  import opened Common

  predicate IsDigit(c: char) {
    '0' <= c <= '9'
  }

  function Decimal(n: nat): (s: string)
    ensures s != "" && forall i :: 0 <= i < |s| ==> IsDigit(s[i])
  {
    var last := [('0' as int + n % 10) as char];
    if n < 10 then last else Decimal(n / 10) + last
  }

  /** The number written by the digits a text starts with; none if it starts with something else. */
  function LeadingDigits(s: string, acc: Option<nat>): Option<nat>
    decreases |s|
  {
    if s == "" || !IsDigit(s[0]) then acc
    else LeadingDigits(s[1..], Some(acc.GetOr(0) * 10 + (s[0] as int - '0' as int)))
  }

  lemma {:induction false} DigitsAppend(s: string, c: char, acc: Option<nat>)
    requires (forall i :: 0 <= i < |s| ==> IsDigit(s[i])) && IsDigit(c)
    ensures LeadingDigits(s + [c], acc)
        == Some(LeadingDigits(s, acc).GetOr(0) * 10 + (c as int - '0' as int))
    decreases |s|
  {
    if s == "" {
      assert s + [c] == [c] && [c][1..] == "";
    } else {
      assert (s + [c])[1..] == s[1..] + [c];
      DigitsAppend(s[1..], c, Some(acc.GetOr(0) * 10 + (s[0] as int - '0' as int)));
    }
  }

  lemma {:induction false} DecimalRoundTrip(n: nat)
    ensures LeadingDigits(Decimal(n), None) == Some(n)
  {
    var last := ('0' as int + n % 10) as char;
    if n < 10 {
      assert [last][1..] == "";
    } else {
      DecimalRoundTrip(n / 10);
      DigitsAppend(Decimal(n / 10), last, None);
    }
  }

  lemma DecimalInjective(m: nat, n: nat)
    requires Decimal(m) == Decimal(n)
    ensures m == n
  {
    DecimalRoundTrip(m);
    DecimalRoundTrip(n);
  }
}
