/** C++ integer arithmetic: conversion to 32 bits, truncating division, and two facts about products used with them. */
module CInt {
  const TWO31: int := 0x8000_0000
  const TWO32: int := 0x1_0000_0000

  type Int32 = x: int | -TWO31 <= x < TWO31
  type Int64 = x: int | -0x8000_0000_0000_0000 <= x < 0x8000_0000_0000_0000

  /** static_cast<int32_t>. */
  function ToInt32(x: int): Int32 {
    (x + TWO31) % TWO32 - TWO31
  }

  lemma ToInt32Keeps(x: int)
    ensures ToInt32(x) == x <==> -TWO31 <= x < TWO31
    ensures ToInt32(x + TWO32) == ToInt32(x)
    ensures (ToInt32(x) - x) % TWO32 == 0
  {
  }

  /** / of C++. */
  function TruncDiv(a: int, b: int): int
    requires b > 0
  {
    if a >= 0 then a / b else -((-a) / b)
  }

  /** % of C++. */
  function TruncMod(a: int, b: int): int
    requires b > 0
  {
    if a >= 0 then a % b else -((-a) % b)
  }

  /** Rounding toward zero: what is left is smaller than the divisor and never of the other sign than the dividend. */
  lemma TruncDivRounds(a: int, b: int)
    requires b > 0
    ensures a == b * TruncDiv(a, b) + TruncMod(a, b)
    ensures -b < TruncMod(a, b) < b
    ensures (a >= 0 ==> TruncMod(a, b) >= 0) && (a <= 0 ==> TruncMod(a, b) <= 0)
  {
    if a < 0 {
      assert -a == b * (-a / b) + -a % b;
      assert b * -(-a / b) == -(b * (-a / b));
    }
  }

  /** Only one quotient rounds so. */
  lemma TruncDivUnique(a: int, b: int, q: int, r: int)
    requires b > 0 && a == b * q + r && -b < r < b
    requires (a >= 0 ==> r >= 0) && (a <= 0 ==> r <= 0)
    ensures q == TruncDiv(a, b) && r == TruncMod(a, b)
  {
    TruncDivRounds(a, b);
    var p := TruncDiv(a, b);
    assert b * p == p * b && b * q == q * b;
    assert (p + 1) * b == p * b + b && (q + 1) * b == q * b + b;
    if p < q {
      ProductMonotone(p + 1, q, b);
    } else if q < p {
      ProductMonotone(q + 1, p, b);
    }
  }

  lemma {:induction false} ProductMonotone(a: int, b: int, c: nat)
    requires a <= b
    ensures a * c <= b * c
  {
    if c > 0 {
      ProductMonotone(a, b, c - 1);
      assert a * c == a * (c - 1) + a && b * c == b * (c - 1) + b;
    }
  }

  lemma {:induction false} ProductOfNaturals(a: nat, c: nat)
    ensures a * c >= 0
  {
    ProductMonotone(0, a, c);
  }
}
