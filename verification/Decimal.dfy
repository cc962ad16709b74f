/** Decimal text: its length, and the powers of ten that the digit count relies on. */
module Decimal {
  import opened Arith

  function Pow10(n: nat): (p: nat)
    ensures p > 0
  {
    if n == 0 then 1 else 10 * Pow10(n - 1)
  }

  predicate IsDigit(c: char) { '0' <= c <= '9' }

  function DigitChar(d: nat): (c: char)
    requires d < 10
    ensures IsDigit(c) && DigitValue(c) == d
  {
    '0' + d as char
  }

  function DigitValue(c: char): (d: nat)
    requires IsDigit(c)
    ensures d < 10
  {
    (c - '0') as nat
  }

  /** The shortest decimal text of n. */
  function Text(n: nat): (s: string)
    ensures |s| > 0
  {
    if n < 10 then [DigitChar(n)] else Text(n / 10) + [DigitChar(n % 10)]
  }

  predicate AllDigits(s: string) { forall i :: 0 <= i < |s| ==> IsDigit(s[i]) }

  /** The number that a digit string denotes. */
  function Value(s: string): nat
    requires AllDigits(s)
  {
    if s == [] then 0 else Value(s[..|s|-1]) * 10 + DigitValue(s[|s|-1])
  }

  lemma {:induction false} TextDenotes(n: nat)
    ensures AllDigits(Text(n)) && Value(Text(n)) == n
  {
    if n < 10 {
      assert Text(n)[..0] == [];
    } else {
      TextDenotes(n / 10);
      assert Text(n)[..|Text(n)| - 1] == Text(n / 10);
    }
  }

  lemma {:induction false} TextLength(n: nat)
    ensures n < Pow10(|Text(n)|)
    ensures n > 0 ==> Pow10(|Text(n)| - 1) <= n
  {
    if n >= 10 {
      TextLength(n / 10);
    }
  }

  lemma {:induction false} Pow10Mono(a: nat, b: nat)
    requires a <= b
    ensures Pow10(a) <= Pow10(b)
    decreases b - a
  {
    if a < b { Pow10Mono(a + 1, b); }
  }

  lemma {:induction false} Pow10Add(a: nat, b: nat)
    ensures Pow10(a + b) == Pow10(a) * Pow10(b)
  {
    if a > 0 {
      Pow10Add(a - 1, b);
      assert Pow10(a + b) == 10 * Pow10(a - 1 + b);
      assert 10 * (Pow10(a - 1) * Pow10(b)) == (10 * Pow10(a - 1)) * Pow10(b);
    }
  }

  // ----- count_digit

  /** The position of the highest set bit. */
  function Log2(x: nat): (b: nat)
    requires x > 0
    ensures Pow2(b) <= x < Pow2(b + 1)
  {
    if x == 1 then 0 else 1 + Log2(x / 2)
  }

  function SetLowBit(x: nat): nat { if x % 2 == 0 then x + 1 else x }

  /** count_digit for 64-bit values: 19/64 approximates the logarithm of two to base ten, and
      one comparison with a power of ten corrects the estimate. */
  function CountDigit(x: uint64): nat {
    var y := 19 * Log2(SetLowBit(x)) / 64;
    y + (if x > Pow10(y + 1) - 1 then 1 else 0) + 1
  }

  /** The table of 19 thresholds is never indexed out of range, and the count is exact. */
  lemma CountDigitExact(x: uint64)
    ensures CountDigit(x) == |Text(x)|
    ensures 19 * Log2(SetLowBit(x)) / 64 < 19
  {
    var b := Log2(SetLowBit(x));
    var y := 19 * b / 64;
    BitBelow64(x, b);
    if x > 0 {
      LowBitKeepsLog(x, b);
      LowerEstimate(b);
      UpperEstimate(b);
      TextLength(x);
      var len := |Text(x)|;
      if len - 1 < y { Pow10Mono(len, y); }
      if y + 1 < len - 1 { Pow10Mono(y + 2, len - 1); }
      if len == y + 1 { assert x < Pow10(y + 1); }
    } else {
      assert Log2(1) == 0;
    }
  }

  lemma BitBelow64(x: uint64, b: nat)
    requires b == Log2(SetLowBit(x))
    ensures b < 64
  {
    Pow2Values();
    if b >= 64 { Pow2Mono(64, b); }
  }

  lemma LowBitKeepsLog(x: nat, b: nat)
    requires x > 0 && b == Log2(SetLowBit(x))
    ensures Pow2(b) <= x < Pow2(b + 1)
  {
    if x % 2 == 0 {
      assert Pow2(1) == 2;
      assert Pow2(b) == 2 * Pow2(b - 1);
    }
  }

  /** 1000 <= 1024 carries the lower estimate from b - 10 to b. */
  lemma {:induction false} LowerEstimate(b: nat)
    ensures Pow10(19 * b / 64) <= Pow2(b)
  {
    if b < 10 {
      assert Pow10(0) == 1 && Pow10(1) == 10 && Pow10(2) == 100;
      assert Pow2(4) == 16;
      assert Pow2(7) == 8 * Pow2(4);
      if 4 <= b { Pow2Mono(4, b); }
      if 7 <= b { Pow2Mono(7, b); }
    } else {
      LowerEstimate(b - 10);
      Pow10Mono(19 * b / 64, 19 * (b - 10) / 64 + 3);
      assert Pow10(3) == 1000;
      Pow10Add(3, 19 * (b - 10) / 64);
      Pow2Values();
      Pow2Add(10, b - 10);
    }
  }

  /** 1024^q exceeds 1000^q by less than 16% up to q = 6. */
  lemma UpperEstimate(b: nat)
    requires b < 64
    ensures Pow2(b + 1) <= Pow10(19 * b / 64 + 2)
  {
    var q, r := b / 10, b % 10;
    var e := 19 * b / 64 + 2 - 3 * q;
    Pow2Add(10 * q, r + 1);
    Pow10Add(3 * q, e);
    Thousands(q);
    Units(q, r, e);
    Product(Pow2(10 * q), Pow10(3 * q), Pow2(r + 1), Pow10(e));
  }

  lemma Product(a: nat, x: nat, b: nat, y: nat)
    requires 100 * a <= 116 * x && 116 * b <= 100 * y
    ensures a * b <= x * y
  {
    assert (100 * a) * (116 * b) <= (116 * x) * (116 * b);
    assert (116 * x) * (116 * b) <= (116 * x) * (100 * y);
    assert (100 * a) * (116 * b) == 11600 * (a * b);
    assert (116 * x) * (100 * y) == 11600 * (x * y);
  }

  lemma Thousands(q: nat)
    requires q <= 6
    ensures 100 * Pow2(10 * q) <= 116 * Pow10(3 * q)
  {
    Pow2Values();
    Pow2Add(10, 10); Pow2Add(20, 10); Pow2Add(30, 10); Pow2Add(40, 10); Pow2Add(50, 10);
    assert Pow10(3) == 1000;
    Pow10Add(3, 3); Pow10Add(6, 3); Pow10Add(9, 3); Pow10Add(12, 3); Pow10Add(15, 3);
  }

  lemma Units(q: nat, r: nat, e: int)
    requires q <= 6 && r < 10 && e == 19 * (10 * q + r) / 64 + 2 - 3 * q
    ensures e >= 1 && 116 * Pow2(r + 1) <= 100 * Pow10(e)
  {
    assert e >= if r == 0 then 1 else if r <= 3 then 2 else if r <= 7 then 3 else 4;
    assert Pow10(1) == 10 && Pow10(2) == 100 && Pow10(3) == 1000 && Pow10(4) == 10000;
    assert Pow2(1) == 2 && Pow2(4) == 16 && Pow2(8) == 16 * Pow2(4) && Pow2(10) == 4 * Pow2(8);
    if r == 0 {
      Pow10Mono(1, e);
    } else if r <= 3 {
      Pow2Mono(r + 1, 4);
      Pow10Mono(2, e);
    } else if r <= 7 {
      Pow2Mono(r + 1, 8);
      Pow10Mono(3, e);
    } else {
      Pow2Mono(r + 1, 10);
      Pow10Mono(4, e);
    }
  }
}
