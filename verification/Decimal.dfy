// Integers printed in decimal, as the %d verb does, and read back.
module Decimal {
  import opened Wrappers

  function Digit(d: nat): char
    requires d < 10
  {
    '0' + d as char
  }

  predicate IsDigit(c: char) {
    '0' <= c <= '9'
  }

  function FormatNat(n: nat): string {
    if n < 10 then [Digit(n)] else FormatNat(n / 10) + [Digit(n % 10)]
  }

  function Format(n: int): string {
    if n < 0 then "-" + FormatNat(-n) else FormatNat(n)
  }

  predicate IsNumeral(s: string) {
    s != "" && forall i :: 0 <= i < |s| ==> IsDigit(s[i])
  }

  function ValueOf(s: string): nat
    requires forall i :: 0 <= i < |s| ==> IsDigit(s[i])
  {
    if s == "" then 0
    else
      var c := s[|s| - 1];
      assert IsDigit(c);
      10 * ValueOf(s[..|s| - 1]) + (c as int - '0' as int)
  }

  function Parse(s: string): Option<int> {
    if s != "" && s[0] == '-' then
      if IsNumeral(s[1..]) then Some(0 - ValueOf(s[1..])) else None
    else if IsNumeral(s) then Some(ValueOf(s))
    else None
  }

  lemma {:induction false} NatRoundTrip(n: nat)
    ensures IsNumeral(FormatNat(n)) && ValueOf(FormatNat(n)) == n
  {
    var s := FormatNat(n);
    if n < 10 {
      assert s[..0] == "";
    } else {
      NatRoundTrip(n / 10);
      assert s[..|s| - 1] == FormatNat(n / 10);
    }
  }

  lemma RoundTrip(n: int)
    ensures Parse(Format(n)) == Some(n)
  {
    if n < 0 {
      NatRoundTrip(-n);
      assert Format(n)[1..] == FormatNat(-n);
    } else {
      NatRoundTrip(n);
      assert IsDigit(FormatNat(n)[0]);
    }
  }
}
