/** The bit-by-bit integer cube root. */
module CubeRoot {
  import opened Arith

  function Cube(y: int): int { y * y * y }

  /** y is the integer cube root of n. */
  ghost predicate IsCbrt(n: int, y: int) { y >= 0 && Cube(y) <= n < Cube(y + 1) }

  /** The step from one cube to the next. */
  function Gap(y: int): int { 3 * y * (y + 1) + 1 }

  lemma CubeStep(y: int)
    ensures Cube(y + 1) - Cube(y) == Gap(y)
  {
  }

  lemma CubeDouble(y: int)
    ensures Cube(2 * y) == 8 * Cube(y)
    ensures Cube(2 * y + 2) == 8 * Cube(y + 1)
  {
    var z := y + 1;
    assert 2 * y + 2 == 2 * z;
    assert (2 * z) * (2 * z) * (2 * z) == 8 * (z * z * z);
    assert (2 * y) * (2 * y) * (2 * y) == 8 * (y * y * y);
  }

  lemma {:induction false} CubeMono(a: int, b: int)
    requires 0 <= a <= b
    ensures Cube(a) <= Cube(b)
    decreases b - a
  {
    if a < b {
      CubeStep(a);
      assert a * (a + 1) >= 0;
      CubeMono(a + 1, b);
    }
  }

  /** There is at most one integer cube root. */
  lemma CbrtUnique(n: int, a: int, b: int)
    requires IsCbrt(n, a) && IsCbrt(n, b)
    ensures a == b
  {
    if a < b { CubeMono(a + 1, b); }
    if b < a { CubeMono(b + 1, a); }
  }

  /** The cube by its second differences; it keeps the proof of the loop free of polynomials. */
  ghost function Cubed(y: nat): nat { if y == 0 then 0 else Cubed(y - 1) + Difference(y - 1) }

  ghost function Difference(y: nat): nat { if y == 0 then 1 else Difference(y - 1) + 6 * y }

  lemma {:induction false} CubedIsCube(y: nat)
    ensures Cubed(y) == Cube(y) && Difference(y) == Gap(y)
  {
    if y > 0 {
      CubedIsCube(y - 1);
      CubeStep(y - 1);
    }
  }

  /** What is left of n0 once the digits above weight p have produced the partial root y. */
  ghost predicate Partial(n0: int, n: int, y: nat, p: int) {
    n == n0 - Cubed(y) * p && 0 <= n < Difference(y) * p
  }

  /** One digit: the remainder n at weight 8p becomes the remainder n' at weight p. */
  lemma Digit(n0: int, n: int, y: nat, weight: int, p: int, b: int, n': int, y': nat)
    requires p > 0 && weight == 8 * p && b == Gap(2 * y) && Partial(n0, n, y, weight)
    requires if n / p >= b then n' == n - b * p && y' == 2 * y + 1 else n' == n && y' == 2 * y
    ensures Partial(n0, n', y', p)
  {
    DoubledCubes(y);
    Quotient(n, p, b);
    Split(n0, n, Cubed(y), Difference(y), Cubed(2 * y), Cubed(2 * y + 1), Cubed(2 * y + 2), p);
  }

  lemma DoubledCubes(y: nat)
    ensures 8 * Cubed(y) == Cubed(2 * y) && 8 * Difference(y) == Cubed(2 * y + 2) - Cubed(2 * y)
    ensures Cubed(2 * y + 1) - Cubed(2 * y) == Difference(2 * y) == Gap(2 * y)
    ensures Cubed(2 * y + 2) - Cubed(2 * y + 1) == Difference(2 * y + 1)
  {
    CubedIsCube(y);
    CubedIsCube(y + 1);
    CubedIsCube(2 * y);
    CubedIsCube(2 * y + 2);
    CubeDouble(y);
  }

  lemma Scaled(c: int, p: int)
    ensures c * (8 * p) == (8 * c) * p
  {
  }

  lemma LastDigit(n0: int, n: int, y: nat, weight: int, b: int, y': nat)
    requires weight == 8 && Partial(n0, n, y, weight) && b == Gap(2 * y)
    requires y' == if n >= b then 2 * y + 1 else 2 * y
    ensures IsCbrt(n0, y')
  {
    Digit(n0, n, y, weight, 1, b, if n >= b then n - b else n, y');
    CubedIsCube(y');
    CubedIsCube(y' + 1);
  }

  /** The digit's arithmetic: c0, c1 and c2 are the cubes of 2y, 2y + 1 and 2y + 2. */
  lemma Split(n0: int, n: int, c: int, d: int, c0: int, c1: int, c2: int, p: int)
    requires 8 * c == c0 && 8 * d == c2 - c0
    requires n == n0 - c * (8 * p) && 0 <= n < d * (8 * p)
    ensures n == n0 - c0 * p
    ensures n < (c1 - c0) * p || (n - (c1 - c0) * p == n0 - c1 * p && n - (c1 - c0) * p < (c2 - c1) * p)
  {
    Scaled(c, p);
    Scaled(d, p);
    assert (c2 - c0) * p == (c2 - c1) * p + (c1 - c0) * p;
    assert c1 * p == c0 * p + (c1 - c0) * p;
  }

  lemma Quotient(n: int, p: int, b: int)
    requires p > 0 && n >= 0
    ensures n / p >= b <==> n >= b * p
    ensures b >= 0 ==> b * p >= 0
  {
    var q := n / p;
    assert q * p <= n < (q + 1) * p;
    if q >= b { assert q * p >= b * p; } else { assert (q + 1) * p <= b * p; }
  }

  lemma Eight(s: nat)
    requires s >= 3
    ensures Pow2(s) == 8 * Pow2(s - 3)
  {
    assert Pow2(s) == 2 * Pow2(s - 1) && Pow2(s - 1) == 2 * Pow2(s - 2) && Pow2(s - 2) == 2 * Pow2(s - 3);
  }

  /** ngtcp2_cbrt.  Every value is assigned to a 64-bit variable, so nothing overflows. */
  method Cbrt(n0: uint64) returns (y: uint64)
    ensures IsCbrt(n0, y)
  {
    var n, y0;
    ghost var weight;
    n, y0, weight := UpperDigits(n0);
    Small(2 * y0);
    y := 2 * y0;
    var b: uint64 := Gap(y);
    if n >= b {
      y := y + 1;
    }
    LastDigit(n0, n, y0, weight, b, y);
  }

  /** Before the digit at bit s: the remainder at weight 2^(s+3), and a root of 21 - s/3 bits. */
  ghost predicate Before(n0: int, n: int, y: nat, s: int, weight: int) {
    && 0 <= s <= 63 && s % 3 == 0 && weight == 8 * Pow2(s)
    && y <= RootBound(s)
    && Partial(n0, n, y, weight)
  }

  /** The largest root that the digits above bit s can make up. */
  ghost function RootBound(s: int): int
    requires 0 <= s <= 63
  {
    Pow2((63 - s) / 3) - 1
  }

  /** The loop of ngtcp2_cbrt, over all digits but the last. */
  method UpperDigits(n0: uint64) returns (n: uint64, y: uint64, ghost weight: nat)
    ensures weight == 8 && Partial(n0, n, y, weight) && y <= 0x20_0000
  {
    var s: nat := 63;
    n, y, weight := n0, 0, 8 * Pow2(63);
    FirstPartial(n, y, weight);
    while s > 0
      invariant Before(n0, n, y, s, weight)
    {
      n, y, weight := TakeDigit(n0, n, y, s, weight);
      s := s - 3;
    }
    Bounded(21);
  }

  lemma FirstPartial(n: uint64, y: nat, weight: nat)
    requires y == 0 && weight == 8 * Pow2(63)
    ensures Before(n, n, y, 63, weight)
  {
    Pow2Values();
  }

  /** The body of the loop of ngtcp2_cbrt. */
  method TakeDigit(ghost n0: uint64, n: uint64, y: uint64, s: nat, ghost weight: nat)
    returns (n': uint64, y': uint64, ghost weight': nat)
    requires s > 0 && Before(n0, n, y, s, weight)
    ensures Before(n0, n', y', s - 3, weight')
  {
    var z := 2 * y;
    RootRoom(s, y, z);
    var p: nat, b: uint64 := Pow2(s), Gap(z);
    n', y' := TakeBit(n0, n, y, z, weight, p, b);
    weight' := p;
    NextBefore(n0, n', y', s, p);
  }

  lemma NextBefore(n0: int, n: int, y: nat, s: nat, p: nat)
    requires 3 <= s <= 63 && s % 3 == 0 && p == 8 * Pow2(s - 3) && y <= RootBound(s - 3) && Partial(n0, n, y, p)
    ensures Before(n0, n, y, s - 3, p)
  {
  }

  /** The comparison and subtraction of one digit. */
  method TakeBit(ghost n0: uint64, n: uint64, ghost y: uint64, z: uint64, ghost weight: nat, p: nat, b: uint64)
    returns (n': uint64, y': uint64)
    requires p > 0 && weight == 8 * p && z == 2 * y && z + 1 < TWO64 && b == Gap(z) && Partial(n0, n, y, weight)
    ensures Partial(n0, n', y', p) && z <= y' <= z + 1
  {
    Quotient(n, p, b);
    n', y' := n, z;
    if n / p >= b {
      var taken: uint64 := b * p;
      n' := n - taken;
      y' := y' + 1;
    }
    Digit(n0, n, y, weight, p, b, n', y');
  }

  lemma RootRoom(s: nat, y: nat, z: nat)
    requires 0 < s <= 63 && s % 3 == 0 && y <= RootBound(s) && z == 2 * y
    ensures z + 1 <= RootBound(s - 3) && z + 1 <= 0x40_0000 && 0 <= Gap(z) < TWO64
    ensures Pow2(s) == 8 * Pow2(s - 3)
  {
    var k := (63 - s) / 3;
    assert (63 - (s - 3)) / 3 == k + 1;
    Bounded(k);
    Small(z);
    Eight(s);
  }

  lemma Small(y: int)
    requires 0 <= y <= 0x40_0000
    ensures 0 <= Gap(y) < TWO64
  {
    MulMono(y, 0x40_0000, y + 1, 0x40_0001);
    assert 3 * y * (y + 1) == 3 * (y * (y + 1));
  }

  lemma Bounded(k: nat)
    requires k <= 21
    ensures Pow2(k) <= 0x20_0000
  {
    Pow2Values();
    Pow2Mono(k, 21);
  }
}
