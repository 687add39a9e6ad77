/** Masking with a power of two, and the bits of a byte. */
module Bits {

  /** Bitwise and of two naturals. */
  function BitAnd(a: nat, b: nat): nat {
    if a == 0 || b == 0 then 0 else (if a % 2 == 1 && b % 2 == 1 then 1 else 0) + 2 * BitAnd(a / 2, b / 2)
  }

  function Pow2(n: nat): (r: nat)
    ensures r > 0
  {
    if n == 0 then 1 else 2 * Pow2(n - 1)
  }

  /** For a power of two, `& (count - 1)` is the remainder. */
  lemma {:induction false} MaskIsRemainder(a: nat, n: nat)
    ensures BitAnd(a, Pow2(n) - 1) == a % Pow2(n)
  {
    if n > 0 {
      var p := Pow2(n - 1);
      HalfOfMask(p);
      MaskIsRemainder(a / 2, n - 1);
      RemainderSplits(a, p);
    }
  }

  lemma HalfOfMask(p: nat)
    requires p > 0
    ensures (2 * p - 1) % 2 == 1 && (2 * p - 1) / 2 == p - 1
  {
  }

  lemma RemainderSplits(a: nat, p: nat)
    requires p > 0
    ensures a % (2 * p) == a % 2 + 2 * ((a / 2) % p)
  {
    var q, r := (a / 2) / p, (a / 2) % p;
    assert a == 2 * p * q + (2 * r + a % 2) by {
      assert a / 2 == p * q + r;
      assert 2 * (p * q) == 2 * p * q;
    }
    RemainderIs(a, 2 * p, q, 2 * r + a % 2);
  }

  lemma RemainderIs(a: nat, d: nat, q: nat, r: nat)
    requires d > 0 && a == d * q + r && r < d
    ensures a % d == r
  {
    var x, y := a / d, a % d;
    assert a == d * x + y;
    if x < q { TimesKeepsOrder(x + 1, q, d); }
    if x > q { TimesKeepsOrder(q + 1, x, d); }
  }

  lemma TimesKeepsOrder(a: int, b: int, d: nat)
    requires a <= b
    ensures d * a <= d * b
  {
  }

  lemma OneMoreQuotient(n: nat, d: nat)
    requires 1 <= d <= n
    ensures n / d == (n - d) / d + 1
  {
    var q, r := n / d, n % d;
    assert n - d == d * (q - 1) + r;
    QuotientIs(n - d, d, q - 1, r);
  }

  lemma QuotientIs(n: int, d: nat, q: int, r: nat)
    requires n == d * q + r && r < d
    ensures n / d == q
  {
    var x := n / d;
    assert d * x <= n < d * x + d;
    if x < q { TimesKeepsOrder(x + 1, q, d); }
    if x > q { TimesKeepsOrder(q + 1, x, d); }
  }

  // ----- The bits of a byte -----

  /** 1 << i. */
  function Mask(i: nat): bv8
    requires i < 8
  {
    if i == 0 then 0x01 else if i == 1 then 0x02 else if i == 2 then 0x04 else if i == 3 then 0x08
    else if i == 4 then 0x10 else if i == 5 then 0x20 else if i == 6 then 0x40 else 0x80
  }

  predicate Test(b: bv8, i: nat)
    requires i < 8
  {
    b & Mask(i) != 0
  }

  /** Bit `i` in the program's own terms. */
  lemma TestIsShift(b: bv8, i: nat)
    requires i < 8
    ensures Test(b, i) <==> b & (1 << i) != 0
  {
    assert Mask(i) == 1 << i;
  }

  lemma TestAfterSet(b: bv8, i: nat, j: nat)
    requires i < 8 && j < 8
    ensures Test(b | Mask(i), j) <==> i == j || Test(b, j)
  {
  }

  lemma TestAfterOr(a: bv8, b: bv8, j: nat)
    requires j < 8
    ensures Test(a | b, j) <==> Test(a, j) || Test(b, j)
  {
  }

  lemma TestOfZero(j: nat)
    requires j < 8
    ensures !Test(0, j)
  {
  }
}
