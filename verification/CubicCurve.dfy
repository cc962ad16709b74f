/** The CUBIC window curve of section 4.2 of RFC 9438 in ten-bit fixed-point arithmetic. */
module CubicCurve {
  import opened Arith
  import opened CubeRoot
  import opened Common

  const MAX_TIME_DELTA: int := 3600 * 1024

  datatype Vars = Vars(
    cwndPrior: nat, wMax: nat, kM: nat, epochStart: uint64, wEst: nat,
    appLimitedStartTs: uint64, appLimitedDuration: uint64,
    pendingBytesAcked: nat, pendingEstBytesAcked: nat)

  /** The scaled cube d^3 * 0.4 * mss, with the source's four truncations. */
  function Delta(d: nat, mss: nat): nat {
    Weighted(Shifted(d), mss)
  }

  function Shifted(d: nat): nat { d * d / 1024 * d / 1024 }

  function Weighted(x: nat, mss: nat): nat { (x * mss * 4 / 10) / 1024 }

  /** Time since the epoch in 1/1024 s; both the subtraction and the shift are 64-bit. */
  function EpochTime(v: Vars, ts: int): nat {
    ((ts - v.epochStart) % TWO64 * 1024 % TWO64) / SECONDS
  }

  /** cubic_cc_compute_w_cubic. */
  function WCubic(v: Vars, mss: nat, ts: int): nat {
    WAt(v.wMax, v.kM, mss, EpochTime(v, ts))
  }

  function WAt(wMax: nat, kM: nat, mss: nat, t: nat): nat {
    if t < kM then
      var delta := Delta(Min(kM - t, MAX_TIME_DELTA), mss);
      if wMax < delta then 0 else wMax - delta
    else
      wMax + Delta(Min(t - kM, MAX_TIME_DELTA), mss)
  }

  // ----- no overflow

  /** For any payload size a UDP datagram can have, no product of Delta leaves 64 bits. */
  lemma DeltaFits(d: nat, mss: nat)
    requires d <= MAX_TIME_DELTA && mss <= 65535
    ensures d * d < TWO64
    ensures d * d / 1024 * d < TWO64
    ensures d * d / 1024 * d / 1024 * mss * 4 < TWO64
  {
    MulMono(d, MAX_TIME_DELTA, d, MAX_TIME_DELTA);
    var a := d * d / 1024;
    assert a <= 13271040000;
    MulMono(a, 13271040000, d, MAX_TIME_DELTA);
    var b := a * d / 1024;
    assert b <= 47775744000000;
    MulMono(b, 47775744000000, mss, 65535);
  }

  // ----- monotone in time

  lemma DeltaMono(d: nat, e: nat, mss: nat)
    requires d <= e
    ensures Delta(d, mss) <= Delta(e, mss)
  {
    MulMono(d, e, d, e);
    var a, a' := d * d / 1024, e * e / 1024;
    MulMono(a, a', d, e);
    var b, b' := a * d / 1024, a' * e / 1024;
    MulMono(b, b', mss, mss);
  }

  /** The curve never falls, across the switch from its concave to its convex side at kM and
      across the saturation of the time difference. */
  lemma WMono(wMax: nat, kM: nat, mss: nat, t: nat, u: nat)
    requires t <= u
    ensures WAt(wMax, kM, mss, t) <= WAt(wMax, kM, mss, u)
  {
    if u < kM {
      DeltaMono(Min(kM - u, MAX_TIME_DELTA), Min(kM - t, MAX_TIME_DELTA), mss);
    } else if kM <= t {
      DeltaMono(Min(t - kM, MAX_TIME_DELTA), Min(u - kM, MAX_TIME_DELTA), mss);
    }
  }

  /** For fixed variables w_cubic never exceeds w_cubic_next: the two evaluations in the ACK
      handler are `later` apart. */
  lemma WCubicMono(v: Vars, mss: nat, ts: int, later: nat)
    requires v.epochStart <= ts && (ts + later - v.epochStart) * 1024 < TWO64
    ensures WCubic(v, mss, ts) <= WCubic(v, mss, ts + later)
  {
    var a, b := ts - v.epochStart, ts + later - v.epochStart;
    ModSmall(a); ModSmall(a * 1024);
    ModSmall(b); ModSmall(b * 1024);
    WMono(v.wMax, v.kM, mss, EpochTime(v, ts), EpochTime(v, ts + later));
  }

  /** The curve passes through w_max at K, and falls short of it before K by what it exceeds it after K. */
  lemma CurveMirror(wMax: nat, kM: nat, mss: nat, d: nat)
    requires d <= kM
    ensures WAt(wMax, kM, mss, kM) == wMax
    ensures var excess := WAt(wMax, kM, mss, kM + d) - wMax;
            WAt(wMax, kM, mss, kM - d) == if excess <= wMax then wMax - excess else 0
  {
    assert Shifted(0) == 0;
  }

  /** How close Delta comes to 0.4 mss d^3 / 2^30: never above it, and below it by less than the
      roundings allow. */
  predicate NearCube(delta: int, d: nat, mss: nat) {
    && delta * 0x4000_0000 * 10 <= Cube(d) * mss * 4
    && Cube(d) * mss * 4 <= (delta + 2) * 0x4000_0000 * 10 + (1024 * d + 0x10_0000) * mss * 4
  }

  lemma DeltaNearCube(d: nat, mss: nat)
    ensures NearCube(Delta(d, mss), d, mss)
  {
    ShiftedCube(d);
    WeightedBelow(Shifted(d), Cube(d), mss, Cube(d) * mss * 4);
    WeightedAbove(Shifted(d), Cube(d), mss, 1024 * d + 0x10_0000);
  }

  lemma WeightedAbove(x: nat, cube: nat, mss: nat, slack: nat)
    requires cube <= x * 0x10_0000 + slack
    ensures cube * mss * 4 <= (Weighted(x, mss) + 2) * 0x4000_0000 * 10 + slack * mss * 4
  {
    var z := Weighted(x, mss);
    MulMono(cube, x * 0x10_0000 + slack, mss, mss);
    assert (x * 0x10_0000 + slack) * mss == x * mss * 0x10_0000 + slack * mss;
    assert x * mss * 4 < (z + 2) * 1024 * 10;
  }

  /** At every time the curve is w_max + 0.4 mss (t - K)^3 up to the roundings, with the time
      difference cut off at an hour and the window at zero. */
  lemma CurveIsCubic(wMax: nat, kM: nat, mss: nat, t: nat)
    ensures kM <= t ==> NearCube(WAt(wMax, kM, mss, t) - wMax, Min(t - kM, MAX_TIME_DELTA), mss)
    ensures t < kM && WAt(wMax, kM, mss, t) > 0 ==>
              NearCube(wMax - WAt(wMax, kM, mss, t), Min(kM - t, MAX_TIME_DELTA), mss)
  {
    DeltaNearCube(Min(if kM <= t then t - kM else kM - t, MAX_TIME_DELTA), mss);
  }

  /** The curve's clock: 1024ths of a second since the epoch, rounded down. */
  lemma EpochTimeExact(v: Vars, ts: int)
    requires v.epochStart <= ts && (ts - v.epochStart) * 1024 < TWO64
    ensures EpochTime(v, ts) * SECONDS <= (ts - v.epochStart) * 1024 < (EpochTime(v, ts) + 1) * SECONDS
  {
    ModSmall(ts - v.epochStart);
    ModSmall((ts - v.epochStart) * 1024);
  }

  // ----- the start of an epoch

  /** The argument of the cube root in the congestion event; the product is taken in 64 bits. */
  function CbrtArg(wMax: nat, cwnd: nat, mss: nat): uint64
    requires cwnd <= wMax && mss > 0
  {
    (wMax - cwnd) * 0x4000_0000 * 10 % TWO64 / 4 / mss
  }

  lemma ModBelow(a: nat)
    ensures a % TWO64 <= a
  {
  }

  /** Truncations only lower the cube: 2^20 times the shifted cube is at most d^3, and short of
      it by less than 1024 d + 2^20. */
  lemma ShiftedCube(d: nat)
    ensures var x := Shifted(d);
            x * 0x10_0000 <= Cube(d) < x * 0x10_0000 + 1024 * d + 0x10_0000
  {
    var a := d * d / 1024;
    var x := a * d / 1024;
    FloorDiv(d * d, 1024);
    FloorDiv(a * d, 1024);
    MulMono(a * 1024, d * d, d, d);
    assert a * 1024 * d == (a * d) * 1024;
    assert (d * d) * d <= (a * 1024 + 1023) * d by { MulMono(d * d, a * 1024 + 1023, d, d); }
    assert (a * 1024 + 1023) * d == (a * d) * 1024 + 1023 * d;
  }

  /** The root undershoots: k^3 * 4 mss never exceeds the unwrapped argument. */
  lemma RootBelow(wMax: nat, cwnd: nat, mss: nat, k: nat)
    requires cwnd <= wMax && mss > 0 && IsCbrt(CbrtArg(wMax, cwnd, mss), k)
    ensures Cube(k) * mss * 4 <= (wMax - cwnd) * 0x4000_0000 * 10
  {
    ModBelow((wMax - cwnd) * 0x4000_0000 * 10);
    WrappedRoot((wMax - cwnd) * 0x4000_0000 * 10 % TWO64, mss, k);
  }

  /** Section 4.2 of RFC 9438 wants W_cubic(0) to be the reduced window.  Despite every
      truncation, the saturation and even a wrapped cube-root argument, the curve at the start
      of the epoch lies between the reduced window and w_max. */
  lemma CurveStart(v: Vars, cwnd: nat, mss: nat)
    requires cwnd <= v.wMax && mss > 0 && IsCbrt(CbrtArg(v.wMax, cwnd, mss), v.kM)
    ensures cwnd <= WCubic(v, mss, v.epochStart) <= v.wMax
  {
    EpochZero(v, mss);
    DeltaAtMost(Min(v.kM, MAX_TIME_DELTA), v.wMax, cwnd, mss, v.kM);
  }

  lemma EpochZero(v: Vars, mss: nat)
    ensures WCubic(v, mss, v.epochStart) == WAt(v.wMax, v.kM, mss, 0)
    ensures Delta(0, mss) == 0
  {
    assert Shifted(0) == 0;
  }

  lemma DeltaAtMost(c: nat, wMax: nat, cwnd: nat, mss: nat, k: nat)
    requires cwnd <= wMax && mss > 0 && IsCbrt(CbrtArg(wMax, cwnd, mss), k) && c <= k
    ensures Delta(c, mss) <= wMax - cwnd
  {
    RootBelow(wMax, cwnd, mss, k);
    CubeMono(c, k);
    ShiftedCube(c);
    WeightedBelow(Shifted(c), Cube(k), mss, (wMax - cwnd) * 0x4000_0000 * 10);
  }

  /** The argument of the cube root was not cut off at 64 bits. */
  predicate NoWrap(wMax: nat, cwnd: nat)
    requires cwnd <= wMax
  {
    (wMax - cwnd) * 0x4000_0000 * 10 < TWO64
  }

  /** w exceeds the reduced window by no more than the roundings of the root and of the cube
      allow, and two bytes. */
  predicate Tight(w: nat, kM: nat, cwnd: nat, mss: nat) {
    (w - cwnd - 2) * 0x4000_0000 * 10 <= Slack(kM) * mss * 4
  }

  /** The curve starts as close to the reduced window as the roundings allow if and only if the
      argument of the cube root does not wrap, for any payload size a UDP datagram can have; the
      time never saturates at the start.  For K up to ten seconds (kM <= 10240) it then starts at
      most an eighth of a packet and three bytes above it. */
  lemma CurveStartTight(v: Vars, cwnd: nat, mss: nat)
    requires cwnd <= v.wMax && mss > 0 && IsCbrt(CbrtArg(v.wMax, cwnd, mss), v.kM)
    ensures NoWrap(v.wMax, cwnd) ==> Tight(WCubic(v, mss, v.epochStart), v.kM, cwnd, mss)
    ensures !NoWrap(v.wMax, cwnd) && mss <= 65535 ==> !Tight(WCubic(v, mss, v.epochStart), v.kM, cwnd, mss)
    ensures NoWrap(v.wMax, cwnd) && v.kM <= 10240 ==> WCubic(v, mss, v.epochStart) <= cwnd + mss / 8 + 3
  {
    var k, gap := v.kM, v.wMax - cwnd;
    RootFits(v.wMax, cwnd, mss, k);
    StartValue(v, cwnd, mss);
    var over := gap - Delta(k, mss);
    if NoWrap(v.wMax, cwnd) {
      Unwrapped(v.wMax, cwnd, mss);
      GapToDelta(gap, mss, k);
      if k <= 10240 { SmallSlack(k, mss, over); }
    } else if mss <= 65535 {
      WrapIsFar(v.wMax, cwnd, mss, k);
    }
  }

  /** K never reaches the saturation of the time difference. */
  lemma RootFits(wMax: nat, cwnd: nat, mss: nat, k: nat)
    requires cwnd <= wMax && mss > 0 && IsCbrt(CbrtArg(wMax, cwnd, mss), k)
    ensures k <= 0x20_0000 < MAX_TIME_DELTA
  {
    QuotientFits((wMax - cwnd) * 0x4000_0000 * 10 % TWO64 / 4, mss);
    if k > 0x20_0000 { CubeMono(0x20_0000, k); }
  }

  /** Once the argument wraps, the curve starts further away than any rounding explains. */
  lemma WrapIsFar(wMax: nat, cwnd: nat, mss: nat, k: nat)
    requires cwnd <= wMax && 0 < mss <= 65535 && IsCbrt(CbrtArg(wMax, cwnd, mss), k)
    requires k <= 0x20_0000 && !NoWrap(wMax, cwnd)
    ensures Slack(k) * mss * 4 < (wMax - cwnd - Delta(k, mss) - 2) * 0x4000_0000 * 10
  {
    SlackBelow(k, mss);
    WrappedDelta(wMax - cwnd, mss, k);
  }

  lemma SlackBelow(k: nat, mss: nat)
    requires k <= 0x20_0000 && mss <= 65535
    ensures Slack(k) * mss * 4 < 0x8000_0000_0000_0000
  {
    var slack := Slack(k);
    MulMono(k, 0x20_0000, k, 0x20_0000);
    assert slack == 3 * (k * k) + 1027 * k + 0x10_0001;
    MulMono(slack, 13_200_000_000_000, mss, 65535);
  }

  lemma WrappedDelta(gap: nat, mss: nat, k: nat)
    requires mss > 0 && gap * 0x4000_0000 * 10 >= TWO64
    requires IsCbrt(gap * 0x4000_0000 * 10 % TWO64 / 4 / mss, k)
    ensures Delta(k, mss) * 0x4000_0000 * 10 <= gap * 0x4000_0000 * 10 - TWO64
  {
    var full := gap * 0x4000_0000 * 10;
    WrapLoses(full);
    WrappedRoot(full % TWO64, mss, k);
    ShiftedCube(k);
    WeightedBelow(Shifted(k), Cube(k), mss, full % TWO64);
  }

  lemma WrapLoses(a: nat)
    requires a >= TWO64
    ensures a % TWO64 <= a - TWO64
  {
  }

  lemma WrappedRoot(a: nat, mss: nat, k: nat)
    requires mss > 0 && Cube(k) <= a / 4 / mss
    ensures Cube(k) * mss * 4 <= a
  {
    FloorDiv(a, 4);
    FloorDiv(a / 4, mss);
    MulMono(Cube(k), a / 4 / mss, mss, mss);
  }

  lemma WeightedBelow(x: nat, cube: nat, mss: nat, a: nat)
    requires x * 0x10_0000 <= cube && cube * mss * 4 <= a
    ensures Weighted(x, mss) * 0x4000_0000 * 10 <= a
  {
    MulMono(x * 0x10_0000, cube, mss, mss);
    assert x * 0x10_0000 * mss == x * mss * 0x10_0000;
  }

  lemma Unwrapped(wMax: nat, cwnd: nat, mss: nat)
    requires cwnd <= wMax && mss > 0 && NoWrap(wMax, cwnd)
    ensures CbrtArg(wMax, cwnd, mss) == (wMax - cwnd) * 0x4000_0000 * 10 / 4 / mss
  {
    ModSmall((wMax - cwnd) * 0x4000_0000 * 10);
  }

  lemma ModSmall(a: nat)
    requires a < TWO64
    ensures a % TWO64 == a
  {
  }

  lemma StartValue(v: Vars, cwnd: nat, mss: nat)
    requires cwnd <= v.wMax && mss > 0 && IsCbrt(CbrtArg(v.wMax, cwnd, mss), v.kM)
    requires v.kM <= MAX_TIME_DELTA
    ensures WCubic(v, mss, v.epochStart) == v.wMax - Delta(v.kM, mss)
  {
    EpochZero(v, mss);
    DeltaAtMost(v.kM, v.wMax, cwnd, mss, v.kM);
  }

  /** All that rounding can cost. */
  function Slack(k: nat): nat { 3 * k * k + 1027 * k + 0x10_0001 }

  lemma GapToDelta(gap: nat, mss: nat, k: nat)
    requires mss > 0 && gap * 0x4000_0000 * 10 < TWO64
    requires IsCbrt(gap * 0x4000_0000 * 10 / 4 / mss, k)
    ensures (gap - Delta(k, mss) - 2) * 0x4000_0000 * 10 <= Slack(k) * mss * 4
  {
    RootAbove(gap, mss, k);
    NextCube(k);
    WeightedAbove(Shifted(k), Cube(k + 1), mss, Slack(k));
  }

  lemma NextCube(k: nat)
    ensures Cube(k + 1) <= Shifted(k) * 0x10_0000 + Slack(k)
  {
    ShiftedCube(k);
    CubeStep(k);
    assert Gap(k) == 3 * k * k + 3 * k + 1;
  }

  lemma RootAbove(gap: nat, mss: nat, k: nat)
    requires mss > 0 && gap * 0x4000_0000 * 10 < TWO64
    requires IsCbrt(gap * 0x4000_0000 * 10 / 4 / mss, k)
    ensures gap * 0x4000_0000 * 10 < Cube(k + 1) * mss * 4
  {
    var a := gap * 0x4000_0000 * 10;
    var q := a / 4 / mss;
    FloorDiv(a, 4);
    FloorDiv(a / 4, mss);
    MulMono(q + 1, Cube(k + 1), mss, mss);
    assert (q + 1) * mss == q * mss + mss;
  }

  lemma SmallSlack(k: nat, mss: nat, over: int)
    requires k <= 10240 && (over - 2) * 0x4000_0000 * 10 <= Slack(k) * mss * 4
    ensures over <= mss / 8 + 3
  {
    var slack := Slack(k);
    MulMono(k, 10240, k, 10240);
    assert slack <= 326137857;
    MulMono(slack, 326137857, mss, mss);
  }
}
