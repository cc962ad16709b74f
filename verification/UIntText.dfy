/** The decimal writer, the overflow-exact parsers and the unit formatters. */
module UIntText {
  import opened Arith
  import opened Decimal
  import opened Common

  // ----- writing

  function TwoDigits(k: nat): string
    requires k < 100
  {
    [DigitChar(k / 10), DigitChar(k % 10)]
  }

  lemma TextByHundreds(n: nat)
    requires n >= 100
    ensures Text(n) == Text(n / 100) + TwoDigits(n % 100)
  {
    assert n / 10 / 10 == n / 100;
    assert n / 10 % 10 == n % 100 / 10 && n % 10 == n % 100 % 10;
    assert Text(n / 10) == Text(n / 100) + [DigitChar(n / 10 % 10)];
  }

  /** Copying two characters of the digit table to p. */
  method PutPair(a: array<char>, p: nat, k: nat)
    requires p + 2 <= a.Length && k < 100
    modifies a
    ensures [a[p], a[p+1]] == TwoDigits(k)
    ensures forall i :: 0 <= i < a.Length && i != p && i != p + 1 ==> a[i] == old(a[i])
  {
    a[p], a[p+1] := DigitChar(k / 10), DigitChar(k % 10);
  }

  /** UIntFormatter: pairs of digits are written backward from the counted end. */
  method Utos(n0: uint64, a: array<char>, off: nat) returns (end: nat)
    requires off + |Text(n0)| <= a.Length
    modifies a
    ensures end == off + |Text(n0)| && a[off..end] == Text(n0)
    ensures forall i :: 0 <= i < a.Length && !(off <= i < end) ==> a[i] == old(a[i])
  {
    if n0 < 10 {
      a[off] := DigitChar(n0);
      return off + 1;
    }
    if n0 < 100 {
      assert Text(n0) == TwoDigits(n0);
      PutPair(a, off, n0);
      assert a[off..off+2] == [a[off], a[off+1]];
      return off + 2;
    }
    CountDigitExact(n0);
    end := off + CountDigit(n0);
    WriteBackward(n0, a, off, end);
  }

  /** The backward loop, for numbers of three digits or more. */
  method WriteBackward(n0: uint64, a: array<char>, off: nat, end: nat)
    requires n0 >= 100 && end == off + |Text(n0)| <= a.Length
    modifies a
    ensures a[off..end] == Text(n0)
    ensures forall i :: 0 <= i < a.Length && !(off <= i < end) ==> a[i] == old(a[i])
  {
    var n, p := n0, end;
    while n >= 100
      invariant n > 0 && off < p <= end && p == off + |Text(n)|
      invariant Text(n0) == Text(n) + a[p..end]
      invariant forall i :: 0 <= i < a.Length && !(off <= i < end) ==> a[i] == old(a[i])
    {
      TextByHundreds(n);
      ghost var tail := a[p..end];
      p := p - 2;
      PutPair(a, p, n % 100);
      assert forall i :: 0 <= i < |tail| ==> a[p+2..end][i] == tail[i];
      assert a[p+2..end] == tail;
      assert a[p..end] == [a[p], a[p+1]] + tail;
      n := n / 100;
    }
    ghost var tail := a[p..end];
    WriteLast(n, a, off, p);
    assert a[p..end] == tail;
    assert a[off..end] == a[off..p] + a[p..end];
  }

  /** The one or two digits that are left. */
  method WriteLast(n: nat, a: array<char>, off: nat, p: nat)
    requires 0 < n < 100 && p == off + |Text(n)| <= a.Length
    modifies a
    ensures a[off..p] == Text(n)
    ensures forall i :: 0 <= i < a.Length && !(off <= i < p) ==> a[i] == old(a[i])
  {
    if n < 10 {
      a[off] := DigitChar(n);
      return;
    }
    assert Text(n) == TwoDigits(n);
    PutPair(a, off, n);
    assert a[off..p] == [a[off], a[off+1]];
  }

  /** format_uint: the buffer is allocated by count_digit and filled exactly. */
  method FormatUint(n: uint64) returns (s: string)
    ensures s == Text(n)
  {
    if n == 0 {
      return "0";
    }
    CountDigitExact(n);
    var a := new char[CountDigit(n)];
    var end := Utos(n, a, 0);
    return a[..];
  }

  // ----- parsing

  /** The number of leading digits. */
  function DigitPrefix(s: string): (k: nat)
    ensures k <= |s| && AllDigits(s[..k]) && (k < |s| ==> !IsDigit(s[k]))
  {
    if s == [] || !IsDigit(s[0]) then 0
    else
      var k := 1 + DigitPrefix(s[1..]);
      assert s[..k] == [s[0]] + s[1..][..k-1];
      k
  }

  /** What parsing a number at the start of s means: its value and where it ends. */
  function ParsePrefix(s: string): Result<(nat, nat)> {
    var k := DigitPrefix(s);
    if k == 0 then Err(InvalidArgument)
    else if Value(s[..k]) > UINT64_MAX then Err(IntegerOverflow)
    else Ok((Value(s[..k]), k))
  }

  lemma {:induction false} ValueMono(s: string, i: nat)
    requires AllDigits(s) && i <= |s|
    ensures Value(s[..i]) <= Value(s)
    decreases |s| - i
  {
    if i < |s| {
      ValueMono(s[..|s|-1], i);
      assert s[..|s|-1][..i] == s[..i];
    } else {
      assert s[..i] == s;
    }
  }

  lemma DigitsUpTo(s: string, k: nat)
    requires k <= |s| && AllDigits(s[..k])
    ensures forall i :: 0 <= i < k ==> IsDigit(s[i])
  {
    forall i | 0 <= i < k ensures IsDigit(s[i]) { assert s[i] == s[..k][i]; }
  }

  lemma PrefixUnique(s: string, k: nat)
    requires k <= |s| && AllDigits(s[..k]) && (k < |s| ==> !IsDigit(s[k]))
    ensures DigitPrefix(s) == k
  {
    DigitsUpTo(s, k);
    DigitsUpTo(s, DigitPrefix(s));
  }

  /** parse_uint_internal: the overflow test is exact, digit by digit, in 64 bits. */
  method ParseUintInternal(s: string) returns (r: Result<(nat, nat)>)
    ensures r == ParsePrefix(s)
  {
    if s == [] {
      return Err(InvalidArgument);
    }
    var res: uint64 := 0;
    for i := 0 to |s|
      invariant AllDigits(s[..i]) && res == Value(s[..i])
    {
      var c := s[i];
      if !IsDigit(c) {
        PrefixUnique(s, i);
        if i == 0 {
          return Err(InvalidArgument);
        }
        return Ok((res, i));
      }
      var d := DigitValue(c);
      assert s[..i+1][..i] == s[..i];
      if res > (UINT64_MAX - d) / 10 {
        Overflowing(s, i + 1);
        return Err(IntegerOverflow);
      }
      res := res * 10;
      res := res + d;
    }
    assert s[..|s|] == s;
    PrefixUnique(s, |s|);
    return Ok((res, |s|));
  }

  lemma Overflowing(s: string, i: nat)
    requires 0 < i <= |s| && AllDigits(s[..i]) && Value(s[..i]) > UINT64_MAX
    ensures ParsePrefix(s) == Err(IntegerOverflow)
  {
    var k := DigitPrefix(s);
    DigitsUpTo(s, i);
    assert s[..k][..i] == s[..i];
    ValueMono(s[..k], i);
  }

  /** parse_uint. */
  function ParseUint(s: string): Result<nat> {
    match ParsePrefix(s)
    case Err(e) => Err(e)
    case Ok((res, idx)) => if idx != |s| then Err(InvalidArgument) else Ok(res)
  }

  /** A digit string is accepted exactly when it is not empty and fits 64 bits. */
  lemma ParseUintAccepts(s: string)
    ensures ParseUint(s).Ok? <==> s != [] && AllDigits(s) && Value(s) <= UINT64_MAX
    ensures ParseUint(s).Ok? ==> ParseUint(s).value == Value(s)
  {
    assert s[..|s|] == s;
    if AllDigits(s) { PrefixUnique(s, |s|); }
  }

  /** Text followed by something that is not a digit parses back to its number. */
  lemma ParseText(n: uint64, suffix: string)
    requires suffix == [] || !IsDigit(suffix[0])
    ensures ParsePrefix(Text(n) + suffix) == Ok((n, |Text(n)|))
  {
    TextDenotes(n);
    PrefixWithSuffix(Text(n), suffix);
  }

  lemma ParseFormatUint(n: uint64)
    ensures ParseUint(Text(n)) == Ok(n)
  {
    ParseText(n, []);
    assert Text(n) + [] == Text(n);
  }

  // ----- IEC units

  /** The largest unit that divides n without remainder. */
  function IecUnit(n: uint64): (u: (nat, string))
    ensures u.0 > 0 && n % u.0 == 0
    ensures forall v: nat :: v in {0x4000_0000, 0x10_0000, 0x400} && v > u.0 ==> n < v || n % v != 0
  {
    if n >= 0x4000_0000 && n % 0x4000_0000 == 0 then (0x4000_0000, "G")
    else if n >= 0x10_0000 && n % 0x10_0000 == 0 then (0x10_0000, "M")
    else if n >= 0x400 && n % 0x400 == 0 then (0x400, "K")
    else (1, "")
  }

  /** format_uint_iec. */
  function FormatUintIec(n: uint64): string {
    var u := IecUnit(n);
    Text(n / u.0) + u.1
  }

  /** The unit letters that parse_uint_iec accepts; 0 for anything else. */
  function IecMultiplier(unit: string): nat {
    if unit == "G" || unit == "g" then 0x4000_0000
    else if unit == "M" || unit == "m" then 0x10_0000
    else if unit == "K" || unit == "k" then 0x400
    else 0
  }

  /** ASCII lower case. */
  function Lower(s: string): (r: string)
    ensures |r| == |s|
    ensures forall i :: 0 <= i < |s| ==> r[i] == if 'A' <= s[i] <= 'Z' then s[i] - 'A' + 'a' else s[i]
  {
    seq(|s|, i requires 0 <= i < |s| => if 'A' <= s[i] <= 'Z' then s[i] - 'A' + 'a' else s[i])
  }

  /** The units are the powers of 1024 named k, m and g in either case; nothing else is a unit. */
  const IEC_UNITS: map<string, nat> := map["k" := 1024, "m" := 1024 * 1024, "g" := 1024 * 1024 * 1024]

  lemma IecUnitNames(unit: string)
    ensures IecMultiplier(unit) == if Lower(unit) in IEC_UNITS then IEC_UNITS[Lower(unit)] else 0
  {
    if |unit| == 1 {
      assert Lower(unit) == [Lower(unit)[0]];
      assert unit == [unit[0]];
    }
  }

  /** parse_uint_iec. */
  function ParseUintIec(s: string): Result<nat> {
    match ParsePrefix(s)
    case Err(e) => Err(e)
    case Ok((res, idx)) =>
      if idx == |s| then Ok(res)
      else
        var m := IecMultiplier(s[idx..]);
        if m == 0 then Err(InvalidArgument) else Scale(res, m)
  }

  /** Multiplication by a unit, with the division test for overflow. */
  function Scale(res: nat, m: nat): (r: Result<nat>)
    requires m > 0
    ensures r == if res * m > UINT64_MAX then Err(IntegerOverflow) else Ok(res * m)
  {
    if res > UINT64_MAX / m then
      assert res * m > UINT64_MAX by { TooMany(res, m); }
      Err(IntegerOverflow)
    else
      assert res * m <= UINT64_MAX by { Enough(res, m); }
      Ok(res * m)
  }

  lemma TooMany(res: nat, m: nat)
    requires m > 0 && res > UINT64_MAX / m
    ensures res * m > UINT64_MAX
  {
    var q := UINT64_MAX / m;
    assert UINT64_MAX < q * m + m;
    assert res * m >= (q + 1) * m;
  }

  lemma Enough(res: nat, m: nat)
    requires m > 0 && res <= UINT64_MAX / m
    ensures res * m <= UINT64_MAX
  {
    var q := UINT64_MAX / m;
    assert q * m <= UINT64_MAX;
    assert res * m <= q * m;
  }

  lemma WholeUnits(n: nat, u: nat)
    requires u > 0 && n % u == 0
    ensures n / u * u == n && n / u <= n
  {
    var q := n / u;
    assert n == q * u;
    AtLeast(q, u);
  }

  lemma AtLeast(q: nat, u: nat)
    requires u > 0
    ensures q <= q * u
  {
  }

  lemma ParseFormatIec(n: uint64)
    ensures ParseUintIec(FormatUintIec(n)) == Ok(n)
  {
    var u := IecUnit(n);
    WholeUnits(n, u.0);
    ParseText(n / u.0, u.1);
    assert FormatUintIec(n)[|Text(n / u.0)|..] == u.1;
  }

  // ----- durations

  function DurationUnit(n: uint64): (u: (nat, string))
    ensures u.0 > 0 && n % u.0 == 0
    ensures forall v: nat :: v in {3600 * SECONDS, 60 * SECONDS, SECONDS, MILLISECONDS, MICROSECONDS} && v > u.0 ==>
              n < v || n % v != 0
  {
    if n >= 3600 * SECONDS && n % (3600 * SECONDS) == 0 then (3600 * SECONDS, "h")
    else if n >= 60 * SECONDS && n % (60 * SECONDS) == 0 then (60 * SECONDS, "m")
    else if n >= SECONDS && n % SECONDS == 0 then (SECONDS, "s")
    else if n >= MILLISECONDS && n % MILLISECONDS == 0 then (MILLISECONDS, "ms")
    else if n >= MICROSECONDS && n % MICROSECONDS == 0 then (MICROSECONDS, "us")
    else (1, "ns")
  }

  /** format_duration. */
  function FormatDuration(n: uint64): string {
    var u := DurationUnit(n);
    Text(n / u.0) + u.1
  }

  /** The units that parse_duration accepts, in any case; 0 for anything else. */
  function DurationMultiplier(unit: string): nat {
    if |unit| == 1 then
      if unit[0] == 'H' || unit[0] == 'h' then 3600 * SECONDS
      else if unit[0] == 'M' || unit[0] == 'm' then 60 * SECONDS
      else if unit[0] == 'S' || unit[0] == 's' then SECONDS
      else 0
    else if |unit| == 2 && (unit[1] == 's' || unit[1] == 'S') then
      if unit[0] == 'M' || unit[0] == 'm' then MILLISECONDS
      else if unit[0] == 'U' || unit[0] == 'u' then MICROSECONDS
      else if unit[0] == 'N' || unit[0] == 'n' then 1
      else 0
    else 0
  }

  const DURATION_UNITS: map<string, nat> := map[
    "h" := 3600 * SECONDS, "m" := 60 * SECONDS, "s" := SECONDS,
    "ms" := MILLISECONDS, "us" := MICROSECONDS, "ns" := 1]

  lemma DurationUnitNames(unit: string)
    ensures DurationMultiplier(unit) == if Lower(unit) in DURATION_UNITS then DURATION_UNITS[Lower(unit)] else 0
  {
    if |unit| == 1 {
      assert Lower(unit) == [Lower(unit)[0]];
    } else if |unit| == 2 {
      assert Lower(unit) == [Lower(unit)[0], Lower(unit)[1]];
    }
  }

  /** parse_duration.  Without a unit the number is multiplied by a second unchecked, in 64 bits. */
  function ParseDuration(s: string): Result<nat> {
    match ParsePrefix(s)
    case Err(e) => Err(e)
    case Ok((res, idx)) =>
      if idx == |s| then Ok(res * SECONDS % TWO64)
      else
        var m := DurationMultiplier(s[idx..]);
        if m == 0 then Err(InvalidArgument) else Scale(res, m)
  }

  /** A number with a suffix that does not start with a digit: its value times the unit, an error
      if the suffix is no unit or the value too large. */
  lemma ParseWithUnit(digits: string, unit: string)
    requires digits != [] && AllDigits(digits) && unit != [] && !IsDigit(unit[0])
    ensures ParseUintIec(digits + unit) == InUnits(Value(digits), Lower(unit), IEC_UNITS)
    ensures ParseDuration(digits + unit) == InUnits(Value(digits), Lower(unit), DURATION_UNITS)
  {
    IecUnitNames(unit);
    DurationUnitNames(unit);
    PrefixOfDigits(digits, unit);
  }

  lemma PrefixOfDigits(digits: string, unit: string)
    requires digits != [] && AllDigits(digits) && unit != [] && !IsDigit(unit[0])
    ensures if Value(digits) > UINT64_MAX then ParsePrefix(digits + unit) == Err(IntegerOverflow)
            else ParsePrefix(digits + unit) == Ok((Value(digits), |digits|))
    ensures (digits + unit)[|digits|..] == unit
  {
    var s := digits + unit;
    assert s[..|digits|] == digits && s[|digits|..] == unit;
    PrefixUnique(s, |digits|);
  }

  lemma ParseNeedsDigits(s: string)
    requires s == [] || !IsDigit(s[0])
    ensures ParseUint(s) == ParseUintIec(s) == ParseDuration(s) == Err(InvalidArgument)
  {
    PrefixUnique(s, 0);
  }

  /** What a number in a unit of a table should be. */
  function InUnits(v: nat, unit: string, units: map<string, nat>): Result<nat> {
    if v > UINT64_MAX then Err(IntegerOverflow)
    else if unit !in units then Err(InvalidArgument)
    else if v * units[unit] > UINT64_MAX then Err(IntegerOverflow)
    else Ok(v * units[unit])
  }

  lemma ParseFormatDuration(n: uint64)
    ensures ParseDuration(FormatDuration(n)) == Ok(n)
  {
    var u := DurationUnit(n);
    WholeUnits(n, u.0);
    ParseText(n / u.0, u.1);
    assert FormatDuration(n)[|Text(n / u.0)|..] == u.1;
    assert DurationMultiplier(u.1) == u.0;
  }

  /** A number of seconds without a unit is taken at its value exactly up to 18446744073; beyond
      that the product wraps silently, although the same number with the unit "s" is rejected. */
  lemma UnitlessSeconds(s: string)
    requires ParseUint(s).Ok?
    ensures ParseDuration(s) == Ok(Value(s) * SECONDS) <==> Value(s) <= 18446744073
    ensures ParseDuration(s + "s") == if Value(s) <= 18446744073 then Ok(Value(s) * SECONDS) else Err(IntegerOverflow)
  {
    ParseUintAccepts(s);
    PrefixWithSuffix(s, []);
    assert s + [] == s;
    WrapsBeyond(Value(s));
    PrefixWithSuffix(s, "s");
    assert (s + "s")[|s|..] == "s";
    assert DurationMultiplier("s") == SECONDS;
  }

  /** The least number of seconds that wraps becomes 290 milliseconds without a unit. */
  lemma UnitlessWraps()
    ensures ParseDuration("184467" + "44074") == Ok(290448384)
    ensures ParseDuration("184467" + "44074" + "s") == Err(IntegerOverflow)
  {
    var head := LeastWrapHead();
    var s := LeastWrap(head);
    ParseUintAccepts(s);
    UnitlessSeconds(s);
    UnitlessValue(s);
  }

  lemma PushDigit(s: string, v: nat, c: char, d: nat) returns (r: string)
    requires AllDigits(s) && Value(s) == v && d < 10 && c == DigitChar(d)
    ensures r == s + [c] && AllDigits(r) && Value(r) == 10 * v + d
  {
    r := s + [c];
    assert r[..|s|] == s;
  }

  lemma LeastWrapHead() returns (s: string)
    ensures s == "184467" && AllDigits(s) && Value(s) == 184467
  {
    s := PushDigit("", 0, '1', 1);
    s := PushDigit(s, 1, '8', 8);
    s := PushDigit(s, 18, '4', 4);
    s := PushDigit(s, 184, '4', 4);
    s := PushDigit(s, 1844, '6', 6);
    s := PushDigit(s, 18446, '7', 7);
  }

  lemma LeastWrap(head: string) returns (s: string)
    requires AllDigits(head) && Value(head) == 184467
    ensures s == head + "44074" && AllDigits(s) && Value(s) == 18446744074
  {
    s := PushDigit(head, 184467, '4', 4);
    s := PushDigit(s, 1844674, '4', 4);
    s := PushDigit(s, 18446744, '0', 0);
    s := PushDigit(s, 184467440, '7', 7);
    s := PushDigit(s, 1844674407, '4', 4);
  }

  lemma UnitlessValue(s: string)
    requires ParseUint(s).Ok?
    ensures ParseUint(s) == Ok(Value(s)) && ParseDuration(s) == Ok(Value(s) * SECONDS % TWO64)
  {
    ParseUintAccepts(s);
    PrefixWithSuffix(s, []);
    assert s + [] == s;
  }

  lemma WrapsBeyond(v: uint64)
    ensures v * SECONDS % TWO64 == v * SECONDS <==> v <= 18446744073
  {
  }

  lemma PrefixWithSuffix(s: string, suffix: string)
    requires s != [] && AllDigits(s) && Value(s) <= UINT64_MAX && (suffix == [] || !IsDigit(suffix[0]))
    ensures ParsePrefix(s + suffix) == Ok((Value(s), |s|))
  {
    var t := s + suffix;
    assert t[..|s|] == s;
    PrefixUnique(t, |s|);
  }
}
