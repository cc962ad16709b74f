/** The CUBIC congestion controller (RFC 9438) with HyStart++ (RFC 9406) and the undo of
    spurious congestion (section 4.9 of RFC 9438).  Windows are unbounded naturals. */
module Cubic {
  import opened Arith
  import opened CubeRoot
  import opened CubicCurve
  import opened ConnStat
  import opened Common

  const PACING_GAIN_H: nat := 125
  const HS_MIN_RTT_THRESH: nat := 4 * MILLISECONDS
  const HS_MAX_RTT_THRESH: nat := 16 * MILLISECONDS
  const HS_MIN_RTT_DIVISOR: nat := 8
  const HS_N_RTT_SAMPLE: nat := 8
  const HS_CSS_GROWTH_DIVISOR: nat := 4
  const HS_CSS_ROUNDS: nat := 5

  const RESET_VARS: Vars := Vars(0, 0, 0, UINT64_MAX, 0, UINT64_MAX, 0, 0, 0)

  /** The congestion state just before an effective congestion event. */
  datatype Snapshot = Snapshot(v: Vars, cwnd: nat, ssthresh: nat)

  /** s is the first among the largest windows of the history. */
  ghost predicate FirstLargest(h: seq<Snapshot>, s: Snapshot) {
    exists i :: IsFirstLargest(h, s, i)
  }

  ghost predicate IsFirstLargest(h: seq<Snapshot>, s: Snapshot, i: nat) {
    && i < |h| && h[i] == s
    && (forall j :: 0 <= j < i ==> h[j].cwnd < s.cwnd)
    && (forall j :: i < j < |h| ==> h[j].cwnd <= s.cwnd)
  }

  lemma FirstLargestSnoc(h: seq<Snapshot>, s: Snapshot, t: Snapshot)
    requires h != [] ==> FirstLargest(h, s)
    ensures h == [] || s.cwnd < t.cwnd ==> FirstLargest(h + [t], t)
    ensures h != [] && t.cwnd <= s.cwnd ==> FirstLargest(h + [t], s)
  {
    if h == [] {
      assert IsFirstLargest(h + [t], t, 0);
    } else {
      var i :| IsFirstLargest(h, s, i);
      if s.cwnd < t.cwnd {
        assert IsFirstLargest(h + [t], t, |h|);
      } else {
        assert IsFirstLargest(h + [t], s, i);
      }
    }
  }

  // ----- HyStart++

  /** The smallest round-trip time of a round, UINT64_MAX if there is none. */
  function MinRtt(samples: seq<uint64>): uint64 {
    if samples == [] then UINT64_MAX else Min(MinRtt(samples[..|samples|-1]), samples[|samples|-1])
  }

  lemma {:induction false} MinRttLeast(samples: seq<uint64>)
    ensures forall i :: 0 <= i < |samples| ==> MinRtt(samples) <= samples[i]
    ensures samples != [] ==> MinRtt(samples) in samples
  {
    if samples != [] {
      var rest, last := samples[..|samples|-1], samples[|samples|-1];
      MinRttLeast(rest);
      forall i | 0 <= i < |samples| ensures MinRtt(samples) <= samples[i] {
        if i < |rest| { assert samples[i] == rest[i]; }
      }
      assert rest != [] ==> MinRtt(rest) in samples;
    }
  }

  lemma MinRttPush(samples: seq<uint64>, rtt: uint64)
    ensures MinRtt(samples + [rtt]) == Min(MinRtt(samples), rtt)
  {
    assert (samples + [rtt])[..|samples|] == samples;
  }

  /** Section 4.2 of RFC 9406: after eight samples the fastest of them is slower than the fastest
      of the last round by an eighth of that, but by at least 4 ms and at most 16 ms. */
  predicate RttRose(count: nat, min: uint64, lastMin: uint64) {
    && count >= HS_N_RTT_SAMPLE && min != UINT64_MAX && lastMin != UINT64_MAX
    && min >= lastMin + Max(HS_MIN_RTT_THRESH, Min(lastMin / HS_MIN_RTT_DIVISOR, HS_MAX_RTT_THRESH))
  }

  /** The samples of the current round, their minimum and that of the last round; the rounds of
      conservative slow start and its baseline. */
  datatype HyState = HyState(count: nat, min: uint64, lastMin: uint64, cssRound: nat, baseline: uint64)

  const RESET_HY: HyState := HyState(0, UINT64_MAX, UINT64_MAX, 0, UINT64_MAX)

  /** Conservative slow start begins when the round-trip time rose, and ends as spurious when it falls
      below the baseline; otherwise it counts its rounds. */
  predicate HyStep(was: HyState, now: HyState, rtt: uint64, start: bool) {
    && now.count == (if start then 0 else was.count) + 1
    && now.min == Min(if start then UINT64_MAX else was.min, rtt)
    && now.lastMin == (if start then was.min else was.lastMin)
    && (if was.cssRound == 0 then
          if RttRose(now.count, now.min, now.lastMin) then now.cssRound == 1 && now.baseline == now.min
          else now.cssRound == 0
        else if now.min < was.baseline then now.cssRound == 0
        else now.cssRound == was.cssRound + (if start then 1 else 0) && now.baseline == was.baseline)
  }

  class Controller {
    const cstat: Stat
    const rst: Sampler
    var current: Vars
    var undo: Snapshot
    var currentRoundMinRtt: uint64
    var lastRoundMinRtt: uint64
    var rttSampleCount: nat
    var cssBaselineMinRtt: uint64
    var cssRound: nat
    var nextRoundDelivered: nat
    /** The states before the effective congestion events since undo was last cleared. */
    ghost var history: seq<Snapshot>
    /** The round-trip times of the current and of the last round of slow start. */
    ghost var samples: seq<uint64>
    ghost var lastSamples: seq<uint64>

    ghost predicate Valid()
      reads this, cstat
    {
      && cstat.mss > 0 && cstat.cwnd > 0
      && UndoIsFirstLargest(history, undo)
      && HyStart()
    }

    /** The counters of HyStart++ describe the samples of the last two rounds, and there is a
        baseline exactly during conservative slow start. */
    ghost predicate HyStart()
      reads this
    {
      && rttSampleCount == |samples| && currentRoundMinRtt == MinRtt(samples) && lastRoundMinRtt == MinRtt(lastSamples)
      && (cssRound > 0 <==> cssBaselineMinRtt != UINT64_MAX)
    }

    static ghost predicate UndoIsFirstLargest(h: seq<Snapshot>, undo: Snapshot) {
      if h == [] then undo == Snapshot(RESET_VARS, 0, 0) else FirstLargest(h, undo) && undo.cwnd > 0
    }

    /** The window floor of 2 mss, with the Reno-friendly estimate while an epoch is open. */
    static predicate AboveFloor(v: Vars, cwnd: nat, mss: nat) {
      cwnd >= 2 * mss && (v.epochStart != UINT64_MAX ==> v.wEst >= 2 * mss)
    }

    ghost predicate Floor()
      reads this, cstat
    {
      && AboveFloor(current, cstat.cwnd, cstat.mss)
      && (history != [] ==> AboveFloor(undo.v, undo.cwnd, cstat.mss))
    }

    constructor (cstat: Stat, rst: Sampler)
      requires cstat.mss > 0 && cstat.cwnd > 0
      modifies cstat`pacingIntervalM, cstat`sendQuantum
      ensures this.cstat == cstat && this.rst == rst
      ensures Valid() && history == [] && current == RESET_VARS
      ensures cstat.pacingIntervalM >= 1
    {
      this.cstat, this.rst := cstat, rst;
      new;
      Reset();
    }

    /** cubic_cc_reset, which is also ngtcp2_cc_cubic_cc_reset. */
    method Reset()
      requires cstat.mss > 0 && cstat.cwnd > 0
      modifies this, cstat`pacingIntervalM, cstat`sendQuantum
      ensures Valid()
      ensures current == RESET_VARS && history == [] && undo == Snapshot(RESET_VARS, 0, 0)
      ensures Hy() == RESET_HY && rttSampleCount == 0 && nextRoundDelivered == 0
      ensures currentRoundMinRtt == lastRoundMinRtt == cssBaselineMinRtt == UINT64_MAX
      ensures LongestInterval(cstat.pacingIntervalM, cstat.cwnd, PACING_GAIN_H, MILLISECONDS)
      ensures cstat.sendQuantum == 10 * cstat.mss
    {
      current, undo := RESET_VARS, Snapshot(RESET_VARS, 0, 0);
      history, samples, lastSamples := [], [], [];
      currentRoundMinRtt, lastRoundMinRtt, cssBaselineMinRtt := UINT64_MAX, UINT64_MAX, UINT64_MAX;
      rttSampleCount, cssRound, nextRoundDelivered := 0, 0, 0;
      DivTwice(MILLISECONDS * 1024 * 100, PACING_GAIN_H, cstat.cwnd);
      cstat.pacingIntervalM := Max(MILLISECONDS * 1024 * 100 / PACING_GAIN_H / cstat.cwnd, 1);
      cstat.sendQuantum := 10 * cstat.mss;
    }

    /** set_pacing_rate. */
    method SetPacingRate()
      requires cstat.cwnd > 0
      modifies cstat`pacingIntervalM, cstat`sendQuantum
      ensures Paced()
    {
      var rtt := if cstat.firstRttSampleTs == UINT64_MAX then MILLISECONDS else cstat.smoothedRtt;
      DivTwice(rtt * 1024 * 100, PACING_GAIN_H, cstat.cwnd);
      cstat.pacingIntervalM := Max(rtt * 1024 * 100 / PACING_GAIN_H / cstat.cwnd, 1);
      cstat.sendQuantum := BurstFor(cstat.pacingIntervalM, 10 * cstat.mss);
    }

    /** Pacing fits the window: the longest interval that still sends 1.25 windows per round trip, in
        bursts of at most a millisecond or ten packets. */
    ghost predicate Paced()
      reads cstat
    {
      && LongestInterval(cstat.pacingIntervalM, cstat.cwnd, PACING_GAIN_H,
                         if cstat.firstRttSampleTs == UINT64_MAX then MILLISECONDS else cstat.smoothedRtt)
      && Burst(cstat.sendQuantum, cstat.pacingIntervalM, 10 * cstat.mss)
    }

    /** ngtcp2_cc_cubic_cc_on_ack_recv. */
    method OnAckRecv(ack: CcAck, ts: uint64)
      requires Valid()
      modifies this, rst`isCwndLimited, cstat`cwnd, cstat`ssthresh, cstat`pacingIntervalM, cstat`sendQuantum
      ensures Valid() && undo == old(undo) && history == old(history)
      ensures ack.bytesDelivered == 0 || old(cstat.InCongestionRecovery(ack.largestPktSentTs)) ==>
                unchanged(this) && unchanged(cstat)
      ensures ack.bytesDelivered > 0 && !old(cstat.InCongestionRecovery(ack.largestPktSentTs)) ==>
                && RoundStep(ack, old(nextRoundDelivered), old(rst.isCwndLimited))
                && Acked(ack, ts, old(rst.rsIsAppLimited && !rst.isCwndLimited), old(Now()), old(Hy()),
                         ack.pktDelivered >= old(nextRoundDelivered))
      // the floor of two packets: kept in slow start or an open epoch, and lost exactly when the estimate says so
      ensures old(Floor()) && (old(current.epochStart) != UINT64_MAX || old(cstat.cwnd < cstat.ssthresh)) ==> Floor()
      ensures old(cstat.cwnd) >= 2 * cstat.mss ==> (cstat.cwnd < 2 * cstat.mss <==> old(LosesFloor(ack, ts)))
    {
      if ack.bytesDelivered == 0 || cstat.InCongestionRecovery(ack.largestPktSentTs) {
        return;
      }
      var isAppLimited := rst.rsIsAppLimited && !rst.isCwndLimited;
      var roundStart := CountRound(ack);
      Acknowledge(ack, roundStart, isAppLimited, ts);
    }

    ghost function Now(): Snapshot
      reads `current, cstat`cwnd, cstat`ssthresh
    {
      Snapshot(current, cstat.cwnd, cstat.ssthresh)
    }

    /** A round starts when a packet sent after the last start is acknowledged. */
    ghost predicate RoundStep(ack: CcAck, nextWas: nat, limitedWas: bool)
      reads `nextRoundDelivered, rst`delivered, rst`isCwndLimited
    {
      var start := ack.pktDelivered >= nextWas;
      && nextRoundDelivered == (if start then rst.delivered else nextWas)
      && rst.isCwndLimited == (limitedWas && !start)
    }

    method CountRound(ack: CcAck) returns (start: bool)
      modifies `nextRoundDelivered, rst`isCwndLimited
      ensures start == (ack.pktDelivered >= old(nextRoundDelivered))
      ensures RoundStep(ack, old(nextRoundDelivered), old(rst.isCwndLimited))
    {
      start := ack.pktDelivered >= nextRoundDelivered;
      if start {
        nextRoundDelivered := rst.delivered;
        rst.isCwndLimited := false;
      }
    }

    /** What an acknowledgement does to the state `was`: slow start with HyStart++, or congestion
        avoidance, in which an idle sender only notes the time. */
    ghost predicate Acked(ack: CcAck, ts: uint64, idle: bool, was: Snapshot, hyWas: HyState, start: bool)
      reads this, cstat
    {
      if was.cwnd < was.ssthresh then
        && cstat.cwnd == was.cwnd + SlowStartGrowth(ack, idle, hyWas.cssRound)
        && HyStep(hyWas, Hy(), ack.rtt, start) && LeavesSlowStart(hyWas.cssRound, was.v, was.ssthresh, ts)
      else
        && Hy() == hyWas && cstat.ssthresh == was.ssthresh
        && if idle then cstat.cwnd == was.cwnd && current == BusyToIdle(was.v, ts)
           else AvoidanceStep(was.v, was.cwnd, ack, ts)
    }

    /** The two halves of the handler. */
    method Acknowledge(ack: CcAck, roundStart: bool, isAppLimited: bool, ts: uint64)
      requires Valid()
      modifies `current, `currentRoundMinRtt, `lastRoundMinRtt, `rttSampleCount, `cssBaselineMinRtt, `cssRound
      modifies `samples, `lastSamples
      modifies cstat`cwnd, cstat`ssthresh, cstat`pacingIntervalM, cstat`sendQuantum
      ensures Valid() && Acked(ack, ts, isAppLimited, old(Now()), old(Hy()), roundStart)
      ensures old(Floor()) && (old(current.epochStart) != UINT64_MAX || old(cstat.cwnd < cstat.ssthresh)) ==> Floor()
      ensures old(cstat.cwnd) >= 2 * cstat.mss ==>
                (cstat.cwnd < 2 * cstat.mss <==>
                   && old(cstat.cwnd >= cstat.ssthresh) && !isAppLimited
                   && EstimateBelowFloor(old(current), old(cstat.cwnd), cstat.mss, ack, ts))
    {
      if cstat.cwnd < cstat.ssthresh {
        SlowStart(ack, roundStart, isAppLimited, ts);
      } else {
        CongestionAvoidance(ack, isAppLimited, ts);
      }
    }

    /** An acknowledgement in congestion avoidance whose Reno-friendly estimate lies above the
        curve and below two packets. */
    predicate LosesFloor(ack: CcAck, ts: uint64)
      reads this, cstat, rst
      requires cstat.cwnd > 0
    {
      && ack.bytesDelivered > 0 && !cstat.InCongestionRecovery(ack.largestPktSentTs)
      && cstat.cwnd >= cstat.ssthresh && !(rst.rsIsAppLimited && !rst.isCwndLimited)
      && EstimateBelowFloor(current, cstat.cwnd, cstat.mss, ack, ts)
    }

    static predicate EstimateBelowFloor(v0: Vars, cwnd: nat, mss: nat, ack: CcAck, ts: uint64)
      requires cwnd > 0
    {
      var v := IdleToBusy(v0, ts);
      WCubic(v, mss, ts - v.appLimitedDuration) < NextEstimate(v, cwnd, ack.bytesDelivered * mss) < 2 * mss
    }

    /** The Reno-friendly estimate after `bytes` more credit. */
    static function NextEstimate(v: Vars, cwnd: nat, bytes: nat): nat
      requires cwnd > 0
    {
      var m := (bytes + v.pendingEstBytesAcked) / cwnd;
      v.wEst + if v.wEst < v.cwndPrior then m * 9 / 17 else m
    }

    static lemma EstimateExact(v: Vars, v': Vars, cwnd: nat, bytes: nat)
      requires cwnd > 0 && EstimateStep(v, v', cwnd, bytes)
      ensures v'.wEst == NextEstimate(v, cwnd, bytes)
    {
      var m: nat :| Carried(m, cwnd, bytes, v.pendingEstBytesAcked, v'.pendingEstBytesAcked)
                    && v'.wEst == v.wEst + if v.wEst < v.cwndPrior then m * 9 / 17 else m;
      QuotientOf(bytes + v.pendingEstBytesAcked, cwnd, m, v'.pendingEstBytesAcked);
    }

    static lemma QuotientOf(a: nat, b: nat, q: nat, r: nat)
      requires b > 0 && q * b + r == a && r < b
      ensures a / b == q
    {
      FloorDiv(a, b);
      if a / b < q { MulMono(a / b + 1, q, b, b); }
      if a / b > q { MulMono(q + 1, a / b, b, b); }
    }

    /** Growth goes below two packets only by following an estimate that is below two packets. */
    static lemma StepBelowFloor(v: Vars, cwnd: nat, v': Vars, cwnd': nat,
                                mss: nat, delivered: nat, wCubic: nat, wCubicNext: nat, estimate: nat)
      requires cwnd > 0 && cwnd >= 2 * mss && estimate == NextEstimate(v, cwnd, delivered * mss)
      requires GrowthStep(v, cwnd, v', cwnd', mss, delivered, wCubic, wCubicNext)
      ensures cwnd' < 2 * mss <==> wCubic < estimate < 2 * mss
    {
      EstimateExact(v, v', cwnd, delivered * mss);
      FollowsLarger(v, cwnd, v', cwnd', mss, delivered, wCubic, wCubicNext);
      BelowFloor(estimate, cwnd, cwnd', mss, wCubic);
    }

    static lemma FollowsLarger(v: Vars, cwnd: nat, v': Vars, cwnd': nat,
                                mss: nat, delivered: nat, wCubic: nat, wCubicNext: nat)
      requires GrowthStep(v, cwnd, v', cwnd', mss, delivered, wCubic, wCubicNext)
      ensures if v'.wEst > wCubic then cwnd' == v'.wEst else cwnd' >= cwnd
    {
    }

    static lemma BelowFloor(estimate: nat, cwnd: nat, cwnd': nat, mss: nat, wCubic: nat)
      requires cwnd >= 2 * mss && if estimate > wCubic then cwnd' == estimate else cwnd' >= cwnd
      ensures cwnd' < 2 * mss <==> wCubic < estimate < 2 * mss
    {
    }

    /** All that was delivered, or a quarter of it in conservative slow start. */
    static function SlowStartGrowth(ack: CcAck, isAppLimited: bool, cssRound: nat): (growth: nat)
      ensures isAppLimited ==> growth == 0
      ensures !isAppLimited && cssRound == 0 ==> growth == ack.bytesDelivered
      ensures !isAppLimited && cssRound > 0 ==> 4 * growth <= ack.bytesDelivered < 4 * growth + 4
    {
      if isAppLimited then 0
      else if cssRound > 0 then ack.bytesDelivered / HS_CSS_GROWTH_DIVISOR
      else ack.bytesDelivered
    }

    /** The slow-start half, with HyStart++ (section 4.2 of RFC 9406). */
    method SlowStart(ack: CcAck, roundStart: bool, isAppLimited: bool, ts: uint64)
      requires cstat.cwnd > 0 && HyStart()
      modifies `current, `currentRoundMinRtt, `lastRoundMinRtt, `rttSampleCount, `cssBaselineMinRtt, `cssRound
      modifies `samples, `lastSamples
      modifies cstat`cwnd, cstat`ssthresh, cstat`pacingIntervalM, cstat`sendQuantum
      ensures HyStart()
      ensures cstat.cwnd == old(cstat.cwnd) + SlowStartGrowth(ack, isAppLimited, old(cssRound))
      ensures HyStep(old(Hy()), Hy(), ack.rtt, roundStart)
      ensures LeavesSlowStart(old(cssRound), old(current), old(cstat.ssthresh), ts)
    {
      if !isAppLimited {
        GrowInSlowStart(ack);
      }
      UpdateHyStart(ack.rtt, roundStart, ts);
    }

    method GrowInSlowStart(ack: CcAck)
      requires cstat.cwnd > 0
      modifies cstat`cwnd, cstat`pacingIntervalM, cstat`sendQuantum
      ensures cstat.cwnd == old(cstat.cwnd) + SlowStartGrowth(ack, false, cssRound) && Paced()
    {
      if cssRound > 0 {
        cstat.cwnd := cstat.cwnd + ack.bytesDelivered / HS_CSS_GROWTH_DIVISOR;
      } else {
        cstat.cwnd := cstat.cwnd + ack.bytesDelivered;
      }
      SetPacingRate();
    }

    /** Section 4.2 of RFC 9406 after a round-trip sample. */
    method UpdateHyStart(rtt: uint64, roundStart: bool, ts: uint64)
      requires HyStart()
      modifies `current, `currentRoundMinRtt, `lastRoundMinRtt, `rttSampleCount, `cssBaselineMinRtt, `cssRound
      modifies `samples, `lastSamples, cstat`ssthresh
      ensures HyStart() && HyStep(old(Hy()), Hy(), rtt, roundStart)
      ensures LeavesSlowStart(old(cssRound), old(current), old(cstat.ssthresh), ts)
    {
      SampleRtt(rtt, roundStart);
      if cssRound > 0 {
        if currentRoundMinRtt < cssBaselineMinRtt {
          cssBaselineMinRtt, cssRound := UINT64_MAX, 0;
          return;
        }
        if cssRound >= HS_CSS_ROUNDS {
          current := current.(epochStart := ts, wMax := cstat.cwnd, cwndPrior := cstat.cwnd, wEst := cstat.cwnd);
          cstat.ssthresh := cstat.cwnd;
        }
        return;
      }
      if rttSampleCount >= HS_N_RTT_SAMPLE && currentRoundMinRtt != UINT64_MAX && lastRoundMinRtt != UINT64_MAX {
        var thresh := Max(HS_MIN_RTT_THRESH, Min(lastRoundMinRtt / HS_MIN_RTT_DIVISOR, HS_MAX_RTT_THRESH));
        if currentRoundMinRtt >= lastRoundMinRtt + thresh {
          cssBaselineMinRtt, cssRound := currentRoundMinRtt, 1;
        }
      }
    }

    ghost function Hy(): HyState
      reads `rttSampleCount, `currentRoundMinRtt, `lastRoundMinRtt, `cssRound, `cssBaselineMinRtt
    {
      HyState(rttSampleCount, currentRoundMinRtt, lastRoundMinRtt, cssRound, cssBaselineMinRtt)
    }

    /** After five rounds of conservative slow start an epoch opens at the current window. */
    ghost predicate LeavesSlowStart(cssRoundWas: nat, was: Vars, ssthreshWas: nat, ts: uint64)
      reads `current, `cssRound, cstat`cwnd, cstat`ssthresh
    {
      if cssRoundWas > 0 && cssRound >= HS_CSS_ROUNDS
      then
        && cstat.ssthresh == cstat.cwnd
        && current == was.(epochStart := ts, wMax := cstat.cwnd, cwndPrior := cstat.cwnd, wEst := cstat.cwnd)
      else current == was && cstat.ssthresh == ssthreshWas
    }

    /** A new round of slow start, if one starts, and the sample of this acknowledgement. */
    method SampleRtt(rtt: uint64, roundStart: bool)
      requires HyStart()
      modifies `currentRoundMinRtt, `lastRoundMinRtt, `rttSampleCount, `cssRound, `samples, `lastSamples
      ensures HyStart() && cssRound == old(cssRound) + if roundStart && old(cssRound) > 0 then 1 else 0
      ensures samples == (if roundStart then [] else old(samples)) + [rtt]
      ensures lastSamples == if roundStart then old(samples) else old(lastSamples)
      ensures rttSampleCount == (if roundStart then 0 else old(rttSampleCount)) + 1
      ensures currentRoundMinRtt == Min(if roundStart then UINT64_MAX else old(currentRoundMinRtt), rtt)
      ensures lastRoundMinRtt == if roundStart then old(currentRoundMinRtt) else old(lastRoundMinRtt)
    {
      if roundStart {
        StartRound();
      }
      PushSample(rtt);
    }

    /** The samples of the current round become those of the last one. */
    method StartRound()
      requires HyStart()
      modifies `currentRoundMinRtt, `lastRoundMinRtt, `rttSampleCount, `cssRound, `samples, `lastSamples
      ensures HyStart() && cssRound == (if old(cssRound) > 0 then old(cssRound) + 1 else 0)
      ensures samples == [] && lastSamples == old(samples)
      ensures rttSampleCount == 0 && currentRoundMinRtt == UINT64_MAX && lastRoundMinRtt == old(currentRoundMinRtt)
    {
      lastRoundMinRtt, currentRoundMinRtt, rttSampleCount := currentRoundMinRtt, UINT64_MAX, 0;
      lastSamples, samples := samples, [];
      if cssRound > 0 {
        cssRound := cssRound + 1;
      }
    }

    method PushSample(rtt: uint64)
      requires HyStart()
      modifies `currentRoundMinRtt, `rttSampleCount, `samples
      ensures HyStart() && samples == old(samples) + [rtt]
      ensures rttSampleCount == old(rttSampleCount) + 1 && currentRoundMinRtt == Min(old(currentRoundMinRtt), rtt)
    {
      currentRoundMinRtt := Min(currentRoundMinRtt, rtt);
      rttSampleCount := rttSampleCount + 1;
      MinRttPush(samples, rtt);
      samples := samples + [rtt];
    }

    /** The congestion-avoidance half.  Both fractional growths are carried over exactly. */
    method CongestionAvoidance(ack: CcAck, isAppLimited: bool, ts: uint64)
      requires cstat.mss > 0 && cstat.cwnd > 0
      modifies `current, cstat`cwnd, cstat`pacingIntervalM, cstat`sendQuantum
      ensures cstat.cwnd > 0
      ensures current.epochStart == old(current.epochStart) && current.wEst >= old(current.wEst)
      ensures cstat.cwnd < old(cstat.cwnd) ==> cstat.cwnd == current.wEst
      ensures isAppLimited ==> cstat.cwnd == old(cstat.cwnd) && current == BusyToIdle(old(current), ts)
      ensures !isAppLimited ==> AvoidanceStep(old(current), old(cstat.cwnd), ack, ts)
      ensures !isAppLimited && old(cstat.cwnd) >= 2 * cstat.mss ==>
                (cstat.cwnd < 2 * cstat.mss <==> EstimateBelowFloor(old(current), old(cstat.cwnd), cstat.mss, ack, ts))
    {
      if isAppLimited {
        current := BusyToIdle(current, ts);
        return;
      }
      AvoidCongestion(ack, ts);
    }

    method AvoidCongestion(ack: CcAck, ts: uint64)
      requires cstat.mss > 0 && cstat.cwnd > 0
      modifies `current, cstat`cwnd, cstat`pacingIntervalM, cstat`sendQuantum
      ensures cstat.cwnd > 0 && AvoidanceStep(old(current), old(cstat.cwnd), ack, ts) && Paced()
      ensures old(cstat.cwnd) >= 2 * cstat.mss ==>
                (cstat.cwnd < 2 * cstat.mss <==> EstimateBelowFloor(old(current), old(cstat.cwnd), cstat.mss, ack, ts))
    {
      GrowAlongCurve(ack, ts);
      SetPacingRate();
    }

    method GrowAlongCurve(ack: CcAck, ts: uint64)
      requires cstat.mss > 0 && cstat.cwnd > 0
      modifies `current, cstat`cwnd
      ensures cstat.cwnd > 0 && AvoidanceStep(old(current), old(cstat.cwnd), ack, ts)
      ensures old(cstat.cwnd) >= 2 * cstat.mss ==>
                (cstat.cwnd < 2 * cstat.mss <==> EstimateBelowFloor(old(current), old(cstat.cwnd), cstat.mss, ack, ts))
    {
      current := IdleToBusy(current, ts);
      var now := ts - current.appLimitedDuration;
      var w, wNext := WCubic(current, cstat.mss, now), WCubic(current, cstat.mss, now + cstat.smoothedRtt);
      assert EstimateBelowFloor(old(current), cstat.cwnd, cstat.mss, ack, ts) <==>
             w < NextEstimate(current, cstat.cwnd, ack.bytesDelivered * cstat.mss) < 2 * cstat.mss;
      GrowTowards(ack.bytesDelivered, w, wNext);
    }

    method GrowTowards(delivered: nat, w: nat, wNext: nat)
      requires cstat.mss > 0 && cstat.cwnd > 0
      modifies `current, cstat`cwnd
      ensures cstat.cwnd > 0
      ensures GrowthStep(old(current), old(cstat.cwnd), current, cstat.cwnd, cstat.mss, delivered, w, wNext)
      ensures old(cstat.cwnd) >= 2 * cstat.mss ==>
                (cstat.cwnd < 2 * cstat.mss <==>
                   w < NextEstimate(old(current), old(cstat.cwnd), delivered * cstat.mss) < 2 * cstat.mss)
    {
      ghost var v, cwnd := current, cstat.cwnd;
      GrowWindow(delivered, w, wNext);
      if cwnd >= 2 * cstat.mss {
        StepBelowFloor(v, cwnd, current, cstat.cwnd, cstat.mss, delivered, w, wNext,
                       NextEstimate(v, cwnd, delivered * cstat.mss));
      }
    }

    /** Growth along the curve evaluated now and one round trip ahead, on a clock that skips the
        application-limited time. */
    ghost predicate AvoidanceStep(v0: Vars, cwnd0: nat, ack: CcAck, ts: uint64)
      reads this, cstat
    {
      var v := IdleToBusy(v0, ts);
      var now := ts - v.appLimitedDuration;
      GrowthStep(v, cwnd0, current, cstat.cwnd, cstat.mss, ack.bytesDelivered,
                 WCubic(v, cstat.mss, now), WCubic(v, cstat.mss, now + cstat.smoothedRtt))
    }

    /** An application-limited period starts, if none is running. */
    static function BusyToIdle(v: Vars, ts: uint64): Vars {
      if v.appLimitedStartTs == UINT64_MAX then v.(appLimitedStartTs := ts) else v
    }

    /** The running application-limited period ends, and the curve's clock skips it. */
    static function IdleToBusy(v: Vars, ts: uint64): Vars {
      if v.appLimitedStartTs == UINT64_MAX then v
      else v.(appLimitedDuration := (v.appLimitedDuration + ts - v.appLimitedStartTs) % TWO64,
              appLimitedStartTs := UINT64_MAX)
    }

    /** The curve's clock stands still while the application is the limit: when an idle period from
        `from` to `to` ends, the curve is evaluated at the epoch time at which the period began. */
    static lemma ClockSkipsIdle(v: Vars, from: uint64, to: uint64)
      requires v.appLimitedStartTs == UINT64_MAX && from != UINT64_MAX
      requires v.appLimitedDuration <= from <= to
      ensures var u := IdleToBusy(BusyToIdle(v, from), to);
              && u.appLimitedStartTs == UINT64_MAX && u.appLimitedDuration == v.appLimitedDuration + (to - from)
              && EpochTime(u, to - u.appLimitedDuration) == EpochTime(v, from - v.appLimitedDuration)
              && IdleToBusy(u, to) == u
    {
    }

    /** Only the first of several idle acknowledgements starts the period. */
    static lemma IdleStartsOnce(v: Vars, from: uint64, to: uint64)
      requires from != UINT64_MAX
      ensures BusyToIdle(BusyToIdle(v, from), to) == BusyToIdle(v, from)
      ensures BusyToIdle(v, from).appLimitedStartTs ==
                if v.appLimitedStartTs == UINT64_MAX then from else v.appLimitedStartTs
    {
    }

    /** The window the curve asks for one round trip ahead, within [cwnd, 1.5 cwnd]. */
    static function Target(cwnd: nat, wCubicNext: nat): (target: nat)
      ensures cwnd <= target <= cwnd * 3 / 2
      ensures cwnd <= wCubicNext <= cwnd * 3 / 2 ==> target == wCubicNext
      ensures wCubicNext < cwnd ==> target == cwnd
      ensures wCubicNext > cwnd * 3 / 2 ==> target == cwnd * 3 / 2
    {
      if wCubicNext < cwnd then cwnd
      else if 2 * wCubicNext > 3 * cwnd then cwnd * 3 / 2
      else wCubicNext
    }

    /** Growth by the larger of the Reno-friendly estimate and the curve.  What does not make up
        a whole byte of window is carried over, so no acknowledged byte is lost or counted twice. */
    static ghost predicate GrowthStep(v: Vars, cwnd: nat, v': Vars, cwnd': nat,
                                      mss: nat, delivered: nat, wCubic: nat, wCubicNext: nat)
    {
      && EstimateStep(v, v', cwnd, delivered * mss)
      && (if v'.wEst > wCubic
          then cwnd' == v'.wEst && v'.pendingBytesAcked == v.pendingBytesAcked
          else CurveStep(v, v', cwnd, cwnd', (Target(cwnd, wCubicNext) - cwnd) * mss))
      && v' == v.(wEst := v'.wEst, pendingEstBytesAcked := v'.pendingEstBytesAcked,
                  pendingBytesAcked := v'.pendingBytesAcked)
    }

    static ghost predicate EstimateStep(v: Vars, v': Vars, cwnd: nat, bytes: nat) {
      exists m: nat :: Carried(m, cwnd, bytes, v.pendingEstBytesAcked, v'.pendingEstBytesAcked)
                    && v'.wEst == v.wEst + if v.wEst < v.cwndPrior then m * 9 / 17 else m
    }

    static ghost predicate CurveStep(v: Vars, v': Vars, cwnd: nat, cwnd': nat, bytes: int) {
      cwnd' >= cwnd && Carried(cwnd' - cwnd, cwnd, bytes, v.pendingBytesAcked, v'.pendingBytesAcked)
    }

    /** m windows' worth of credit are spent and the rest, less than a window, is kept. */
    static ghost predicate Carried(m: nat, cwnd: nat, bytes: int, pending: nat, rest: nat) {
      m * cwnd + rest == bytes + pending && rest < cwnd
    }

    method GrowWindow(bytesDelivered: nat, wCubic: nat, wCubicNext: nat)
      requires cstat.mss > 0 && cstat.cwnd > 0
      modifies `current, cstat`cwnd
      ensures cstat.cwnd > 0
      ensures GrowthStep(old(current), old(cstat.cwnd), current, cstat.cwnd,
                         cstat.mss, bytesDelivered, wCubic, wCubicNext)
    {
      var v, cwnd := current, cstat.cwnd;
      var m, rest := Carry(bytesDelivered * cstat.mss, v.pendingEstBytesAcked, cwnd);
      v := v.(pendingEstBytesAcked := rest,
              wEst := v.wEst + if v.wEst < v.cwndPrior then m * 9 / 17 else m);
      assert EstimateStep(current, v, cwnd, bytesDelivered * cstat.mss);
      if v.wEst > wCubic {
        cwnd := v.wEst;
      } else {
        var target := Target(cwnd, wCubicNext);
        m, rest := Carry((target - cwnd) * cstat.mss, v.pendingBytesAcked, cwnd);
        v := v.(pendingBytesAcked := rest);
        cwnd := cwnd + m;
      }
      current, cstat.cwnd := v, cwnd;
    }

    static method Carry(bytes: nat, pending: nat, cwnd: nat) returns (m: nat, rest: nat)
      requires cwnd > 0
      ensures Carried(m, cwnd, bytes, pending, rest)
    {
      FloorDiv(bytes + pending, cwnd);
      m := (bytes + pending) / cwnd;
      rest := pending + bytes - m * cwnd;
    }

    /** ngtcp2_cc_cubic_cc_congestion_event. */
    method CongestionEvent(sentTs: uint64, ack: CcAck, ts: uint64)
      requires Valid()
      modifies `current, `undo, `history
      modifies cstat`cwnd, cstat`ssthresh, cstat`recoveryStartTs, cstat`pacingIntervalM, cstat`sendQuantum
      ensures Valid()
      ensures old(cstat.InCongestionRecovery(sentTs)) ==> unchanged(this) && unchanged(cstat)
      ensures !old(cstat.InCongestionRecovery(sentTs)) ==>
                && history == old(history) + [Snapshot(old(current), old(cstat.cwnd), old(cstat.ssthresh))]
                && cstat.recoveryStartTs == ts && current.epochStart == ts && cstat.ssthresh == cstat.cwnd
                && EpochStarted(current, cstat.cwnd, cstat.mss, old(cstat.cwnd), old(current.wMax),
                                rst.rsDelivered, cstat.bytesInFlight + ack.bytesLost)
                && Paced()
      ensures old(Floor()) ==> Floor()
    {
      if cstat.InCongestionRecovery(sentTs) {
        return;
      }
      ghost var before := Snapshot(current, cstat.cwnd, cstat.ssthresh);
      FirstLargestSnoc(history, undo, before);
      history := history + [before];
      if undo.cwnd < cstat.cwnd {
        undo := Snapshot(current, cstat.cwnd, cstat.ssthresh);
      }
      cstat.recoveryStartTs := ts;
      StartEpoch(ack, ts);
      SetPacingRate();
    }

    /** The reduction of the window, and the epoch that starts with it. */
    method StartEpoch(ack: CcAck, ts: uint64)
      requires cstat.mss > 0
      modifies `current, cstat`cwnd, cstat`ssthresh
      ensures cstat.ssthresh == cstat.cwnd && current.epochStart == ts
      ensures EpochStarted(current, cstat.cwnd, cstat.mss, old(cstat.cwnd), old(current.wMax),
                           rst.rsDelivered, cstat.bytesInFlight + ack.bytesLost)
    {
      var cwnd, floor := cstat.cwnd, 2 * cstat.mss;
      var wMax := Max(FastConvergence(cwnd, current.wMax), floor);
      cstat.ssthresh := ReducedWindow(cwnd, cstat.mss, rst.rsDelivered, cstat.bytesInFlight + ack.bytesLost);
      cstat.cwnd := cstat.ssthresh;
      assert wMax >= cstat.cwnd;
      current := NewEpoch(cwnd, wMax, cstat.cwnd, cstat.mss, ts);
    }

    /** The variables and the window after a congestion event at which the window was cwndWas. */
    static ghost predicate EpochStarted(v: Vars, cwnd: nat, mss: nat,
                                        cwndWas: nat, wMaxWas: nat, delivered: nat, flight: nat)
      requires mss > 0
    {
      && v == Vars(cwndWas, v.wMax, v.kM, v.epochStart, cwnd, UINT64_MAX, 0, 0, 0)
      && cwnd == ReducedWindow(cwndWas, mss, delivered, flight)
      && v.wMax == Max(FastConvergence(cwndWas, wMaxWas), 2 * mss)
      && CurveStarted(v, cwnd, mss)
    }

    /** Section 4.2 of RFC 9438: the curve starts between the reduced window and w_max, and as close to
        the former as the roundings allow exactly if K was computed without a wrap. */
    static ghost predicate CurveStarted(v: Vars, cwnd: nat, mss: nat)
      requires mss > 0
    {
      var w := WCubic(v, mss, v.epochStart);
      && cwnd <= v.wMax && cwnd <= w <= v.wMax
      && (NoWrap(v.wMax, cwnd) ==> Tight(w, v.kM, cwnd, mss))
      && (!NoWrap(v.wMax, cwnd) && mss <= 65535 ==> !Tight(w, v.kM, cwnd, mss))
      && (NoWrap(v.wMax, cwnd) && v.kM <= 10240 ==> w <= cwnd + mss / 8 + 3)
      && IsCbrt(CbrtArg(v.wMax, cwnd, mss), v.kM)
    }

    /** The curve of a new epoch. */
    static method NewEpoch(cwnd: nat, wMax: nat, reduced: nat, mss: nat, ts: uint64) returns (v: Vars)
      requires mss > 0 && reduced <= wMax
      ensures v == Vars(cwnd, wMax, v.kM, ts, reduced, UINT64_MAX, 0, 0, 0) && CurveStarted(v, reduced, mss)
    {
      var kM := Cbrt(CbrtArg(wMax, reduced, mss));
      v := Vars(cwnd, wMax, kM, ts, reduced, UINT64_MAX, 0, 0, 0);
      CurveStart(v, reduced, mss);
      CurveStartTight(v, reduced, mss);
    }

    /** Section 4.7 of RFC 9438: a flow that has not regained its last w_max leaves room for others. */
    static function FastConvergence(cwnd: nat, wMax: nat): (w: nat)
      ensures w <= cwnd && (cwnd >= wMax ==> w == cwnd) && 20 * w + 19 >= 17 * cwnd
      ensures cwnd < wMax ==> 20 * w <= 17 * cwnd
    {
      if cwnd < wMax then cwnd * 17 / 20 else cwnd
    }

    /** 70% of the window; if not even half of it was delivered in the round trip, the window was not
        used, and what was delivered or in flight is enough. */
    static function ReducedWindow(cwnd: nat, mss: nat, delivered: nat, flight: nat): (w: nat)
      ensures 2 * mss <= w <= Max(cwnd * 7 / 10, 2 * mss)
      ensures w >= Min(cwnd * 7 / 10, delivered) && w >= Min(cwnd * 7 / 10, flight)
      ensures if 2 * delivered >= cwnd then w == Max(cwnd * 7 / 10, 2 * mss)
              else w <= Max(Max(delivered, flight), 2 * mss)
    {
      var w := cwnd * 7 / 10;
      var w' := if delivered * 2 < cwnd then Min(w, Max(delivered, flight)) else w;
      Max(w', 2 * mss)
    }

    /** ngtcp2_cc_cubic_cc_on_spurious_congestion. */
    method OnSpuriousCongestion()
      requires Valid()
      modifies `current, `undo, `history
      modifies cstat`cwnd, cstat`ssthresh, cstat`recoveryStartTs, cstat`pacingIntervalM, cstat`sendQuantum
      ensures Valid() && history == [] && cstat.recoveryStartTs == UINT64_MAX
      // the window becomes the largest one before any undone event, and never falls
      ensures cstat.cwnd >= old(cstat.cwnd)
      ensures forall i :: 0 <= i < |old(history)| ==> cstat.cwnd >= old(history)[i].cwnd
      ensures if cstat.cwnd == old(cstat.cwnd)
              then current == old(current) && cstat.ssthresh == old(cstat.ssthresh)
              else FirstLargest(old(history), Snapshot(current, cstat.cwnd, cstat.ssthresh)) && Paced()
      ensures old(Floor()) ==> Floor()
    {
      LargestWindow(history, undo);
      cstat.recoveryStartTs := UINT64_MAX;
      if cstat.cwnd < undo.cwnd {
        current := undo.v;
        cstat.cwnd, cstat.ssthresh := undo.cwnd, undo.ssthresh;
        SetPacingRate();
      }
      undo, history := Snapshot(RESET_VARS, 0, 0), [];
    }

    static lemma LargestWindow(h: seq<Snapshot>, undo: Snapshot)
      requires UndoIsFirstLargest(h, undo)
      ensures forall i :: 0 <= i < |h| ==> h[i].cwnd <= undo.cwnd
    {
      if h != [] {
        var k :| IsFirstLargest(h, undo, k);
      }
    }

    /** ngtcp2_cc_cubic_cc_on_persistent_congestion. */
    method OnPersistentCongestion()
      requires Valid()
      modifies this, cstat`cwnd, cstat`recoveryStartTs, cstat`pacingIntervalM, cstat`sendQuantum
      ensures Valid() && Floor() && history == [] && current == RESET_VARS
      ensures cstat.cwnd == 2 * cstat.mss && cstat.recoveryStartTs == UINT64_MAX && Paced()
      ensures Hy() == RESET_HY && nextRoundDelivered == 0
    {
      Reset();
      cstat.cwnd := 2 * cstat.mss;
      cstat.recoveryStartTs := UINT64_MAX;
      SetPacingRate();
    }
  }

  /** Without an open epoch the floor can be lost: after a congestion event at 100 ms and persistent
      congestion, which resets all variables, one acknowledged packet at 500 ms leaves a window of
      half a packet, because the estimate starts over from zero. */
  method FloorLostInRun() returns (mss: nat, windows: seq<nat>)
    ensures |windows| == 4 && windows[0] == windows[1] == windows[2] == 2 * mss
    ensures windows[3] == mss / 2 > 0
  {
    mss := 1200;
    var cstat := new Stat(mss, 2 * mss);
    var rst := new Sampler();
    rst.rsIsAppLimited := false;
    var c := new Controller(cstat, rst);
    var w0 := cstat.cwnd;
    c.CongestionEvent(90 * MILLISECONDS, CcAck(0, 1200, 0, UINT64_MAX, UINT64_MAX), 100 * MILLISECONDS);
    var w1 := cstat.cwnd;
    c.OnPersistentCongestion();
    var w2 := cstat.cwnd;
    AckBelowFloor(c);
    windows := [w0, w1, w2, cstat.cwnd];
  }

  /** An acknowledgement of one packet at 500 ms, with all variables reset and a window of two packets. */
  method AckBelowFloor(c: Controller)
    requires c.Valid() && c.current == RESET_VARS && c.cstat.mss == 1200 && c.cstat.cwnd == c.cstat.ssthresh == 2400
    requires !c.rst.rsIsAppLimited && c.cstat.recoveryStartTs == UINT64_MAX
    modifies c, c.rst`isCwndLimited, c.cstat`cwnd, c.cstat`ssthresh, c.cstat`pacingIntervalM, c.cstat`sendQuantum
    ensures c.cstat.cwnd == 600
  {
    var ack := CcAck(1200, 0, 0, 450 * MILLISECONDS, 50 * MILLISECONDS);
    c.OnAckRecv(ack, 500 * MILLISECONDS);
    FloorLostStep();
    Controller.EstimateExact(RESET_VARS, c.current, 2400, 1200 * 1200);
  }

  lemma FloorLostStep()
    ensures WCubic(RESET_VARS, 1200, 500 * MILLISECONDS) == 60
    ensures Controller.NextEstimate(RESET_VARS, 2400, 1200 * 1200) == 600
  {
    assert EpochTime(RESET_VARS, 500 * MILLISECONDS) == 512;
    assert Shifted(512) == 128;
  }

  /** A congestion event at which the argument of the cube root wraps: from a window of six billion
      bytes the curve starts further above the reduced window than any rounding explains. */
  method WrapInRun() returns (mss: nat, v: Vars, cwnd: nat, start: nat)
    ensures mss == 1200 && v.wMax == 6_000_000_000 && cwnd == 4_200_000_000 && start == WCubic(v, mss, v.epochStart)
    ensures !NoWrap(v.wMax, cwnd) && !Tight(start, v.kM, cwnd, mss)
  {
    mss := 1200;
    var cstat := new Stat(mss, 6_000_000_000);
    var rst := new Sampler();
    rst.rsDelivered := 6_000_000_000;
    var c := new Controller(cstat, rst);
    c.CongestionEvent(90 * MILLISECONDS, CcAck(0, 1200, 0, UINT64_MAX, UINT64_MAX), 100 * MILLISECONDS);
    v, cwnd := c.current, cstat.cwnd;
    start := WCubic(v, mss, v.epochStart);
  }
}
