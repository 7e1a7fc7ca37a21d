/** Decimal numerals, as `printf` writes them and `atoll` reads them. */
module Decimals {

  predicate IsDigit(c: char) {
    '0' <= c <= '9'
  }

  function Digit(d: nat): (c: char)
    requires d < 10
    ensures IsDigit(c) && c as int - '0' as int == d
  {
    ('0' as int + d) as char
  }

  function Decimal(n: nat): (s: string)
    ensures s != [] && forall i | 0 <= i < |s| :: IsDigit(s[i])
  {
    if n < 10 then [Digit(n)] else Decimal(n / 10) + [Digit(n % 10)]
  }

  /** Reads digits up to the first other character, with `acc` read before. */
  function Scan(s: string, acc: nat): nat {
    if s == [] || !IsDigit(s[0]) then acc else Scan(s[1..], 10 * acc + (s[0] as int - '0' as int))
  }

  lemma {:induction false} ScanDecimal(n: nat, rest: string)
    ensures Scan(Decimal(n) + rest, 0) == Scan(rest, n)
  {
    if n < 10 {
      assert (Decimal(n) + rest)[1..] == rest;
    } else {
      var d := [Digit(n % 10)];
      ScanDecimal(n / 10, d + rest);
      assert Decimal(n) + rest == Decimal(n / 10) + (d + rest);
      assert (d + rest)[1..] == rest;
    }
  }

  /** Ten times a number ends in a zero, and so on: the base is ten, the highest digit first. */
  lemma DecimalSpelled(n: nat, d: nat)
    requires d < 10
    ensures Decimal(d) == ["0123456789"[d]] && (n > 0 ==> Decimal(10 * n + d) == Decimal(n) + ["0123456789"[d]])
  {
  }

  lemma DecimalInjective(a: nat, b: nat)
    requires Decimal(a) == Decimal(b)
    ensures a == b
  {
    ScanDecimal(a, []);
    ScanDecimal(b, []);
    assert Decimal(a) + [] == Decimal(a);
  }
}
