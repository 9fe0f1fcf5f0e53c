/** Natural numbers written in decimal, and read back. */
module Numerals {
  function Digit(d: nat): char
    requires d < 10
  {
    '0' + d as char
  }

  predicate IsDigit(c: char) {
    '0' <= c <= '9'
  }

  function Decimal(n: nat): (r: string)
    ensures r != "" && forall c :: c in r ==> IsDigit(c)
  {
    if n < 10 then [Digit(n)] else Decimal(n / 10) + [Digit(n % 10)]
  }

  function Number(s: string): nat
    requires forall c :: c in s ==> IsDigit(c)
  {
    if s == "" then 0
    else
      var last := s[|s| - 1];
      assert last in s;
      assert IsDigit(last);
      var head := Number(s[..|s| - 1]);
      head * 10 + (last as int - '0' as int)
  }

  lemma {:induction false} NumberDecimal(n: nat)
    ensures Number(Decimal(n)) == n
  {
    if n < 10 {
      assert Number([Digit(n)][..0]) == 0;
    } else {
      NumberDecimal(n / 10);
      var s := Decimal(n);
      assert s[..|s| - 1] == Decimal(n / 10);
    }
  }

  /** How many digits a text begins with. */
  function DigitRun(s: string): (n: nat)
    ensures n <= |s|
    ensures forall j :: 0 <= j < n ==> IsDigit(s[j])
    ensures n < |s| ==> !IsDigit(s[n])
  {
    if s == "" || !IsDigit(s[0]) then 0 else 1 + DigitRun(s[1..])
  }

  lemma {:induction false} DigitRunOf(d: string, rest: string)
    requires forall c :: c in d ==> IsDigit(c)
    requires rest == "" || !IsDigit(rest[0])
    ensures DigitRun(d + rest) == |d|
  {
    if d == "" {
      assert d + rest == rest;
    } else {
      assert d[0] in d && (d + rest)[1..] == d[1..] + rest;
      DigitRunOf(d[1..], rest);
    }
  }
}
