/** Machine-width integers and powers of two. */
module Arith {
  const TWO64: int := 0x1_0000_0000_0000_0000
  const UINT64_MAX: uint64 := 0xFFFF_FFFF_FFFF_FFFF

  type uint64 = x: int | 0 <= x < TWO64

  function Pow2(n: nat): (p: nat)
    ensures p > 0
  {
    if n == 0 then 1 else 2 * Pow2(n - 1)
  }

  lemma {:induction false} Pow2Add(a: nat, b: nat)
    ensures Pow2(a + b) == Pow2(a) * Pow2(b)
  {
    if a > 0 {
      Pow2Add(a - 1, b);
      var x, y := Pow2(a - 1), Pow2(b);
      assert Pow2(a + b) == 2 * Pow2(a - 1 + b);
      Doubled(x, y);
    }
  }

  lemma Doubled(x: nat, y: nat)
    ensures 2 * (x * y) == (2 * x) * y
  {
  }

  lemma {:induction false} Pow2Mono(a: nat, b: nat)
    requires a <= b
    ensures Pow2(a) <= Pow2(b)
    decreases b - a
  {
    if a < b { Pow2Mono(a + 1, b); }
  }

  lemma Pow2Values()
    ensures Pow2(10) == 0x400 && Pow2(20) == 0x10_0000 && Pow2(21) == 0x20_0000 && Pow2(30) == 0x4000_0000
    ensures Pow2(63) == 0x8000_0000_0000_0000 && Pow2(64) == TWO64
  {
    assert Pow2(5) == 32;
    Pow2Add(5, 5);
    Pow2Add(10, 10);
    Pow2Add(20, 1);
    Pow2Add(20, 10);
    Pow2Add(21, 21);
    Pow2Add(42, 21);
    Pow2Add(63, 1);
  }

  lemma MulMono(a: nat, a': nat, b: nat, b': nat)
    requires a <= a' && b <= b'
    ensures a * b <= a' * b'
  {
    assert a * b <= a' * b;
    assert a' * b <= a' * b';
  }

  lemma FloorDiv(a: nat, b: nat)
    requires b > 0
    ensures a / b >= 0 && a / b * b <= a < a / b * b + b
  {
  }

  lemma QuotientFits(a: nat, b: nat)
    requires b > 0
    ensures a / b <= a
  {
    FloorDiv(a, b);
    MulMono(a / b, a / b, 1, b);
  }

  /** If x is a / b, then bounds of x scale to bounds of a. */
  lemma QuotientBounds(a: nat, b: nat, x: nat, lo: nat, hi: nat)
    requires x * b <= a < x * b + b && lo <= x < hi
    ensures lo * b <= a < hi * b
  {
    MulMono(lo, x, b, b);
    assert (x + 1) * b == x * b + b;
    MulMono(x + 1, hi, b, b);
  }

  /** Dividing twice is dividing once by the product. */
  lemma DivTwice(a: nat, b: nat, c: nat)
    requires b > 0 && c > 0
    ensures var q := a / b / c; q >= 0 && q * c * b <= a < (q + 1) * c * b
  {
    FloorDiv(a, b);
    var x: nat := a / b;
    FloorDiv(x, c);
    var q: nat := x / c;
    assert (q + 1) * c == q * c + c;
    var lo: nat, hi: nat := q * c, (q + 1) * c;
    QuotientBounds(a, b, x, lo, hi);
  }

  lemma DivThrice(a: nat, b: nat, c: nat, d: nat)
    requires b > 0 && c > 0 && d > 0
    ensures var q := a / b / c / d; q >= 0 && q * d * c * b <= a < (q + 1) * d * c * b
  {
    FloorDiv(a, b);
    var x: nat := a / b;
    DivTwice(x, c, d);
    var q: nat := x / c / d;
    var lo: nat, hi: nat := q * d * c, (q + 1) * d * c;
    QuotientBounds(a, b, x, lo, hi);
  }

  function Min(a: int, b: int): int { if a <= b then a else b }

  function Max(a: int, b: int): int { if a >= b then a else b }
}
