/** The connection statistics and the delivery-rate sampler that the controllers share. */
module ConnStat {
  import opened Arith
  import opened Common

  datatype CcAck = CcAck(
    bytesDelivered: nat, bytesLost: nat, pktDelivered: nat,
    largestPktSentTs: uint64, rtt: uint64)

  datatype CcPkt = CcPkt(
    pktlen: nat, sentTs: uint64, lost: nat, txInFlight: nat, isAppLimited: bool)

  /** ngtcp2_cc_compute_initcwnd: ten packets of up to 1472 bytes, then as many as make up 14720
      bytes, but two of them in any case (section 7.2 of RFC 9002). */
  function InitialCwnd(mss: nat): (w: nat)
    ensures mss <= 1472 ==> w == 10 * mss
    ensures 1472 <= mss <= 7360 ==> w == 14720
    ensures mss >= 7360 ==> w == 2 * mss
  {
    Min(10 * mss, Max(2 * mss, 14720))
  }

  /** The initial window holds four packets exactly up to packets of 3680 bytes. */
  lemma InitialCwndHoldsFour(mss: nat)
    ensures InitialCwnd(mss) >= 4 * mss <==> mss <= 3680
  {
  }

  /** The longest interval, in 1/1024 ns per byte, at which gainH hundredths of the volume still go out
      per round trip; at least 1. */
  predicate LongestInterval(interval: nat, volume: nat, gainH: nat, rtt: nat) {
    && interval >= 1
    && (interval > 1 ==> interval * volume * gainH <= rtt * 1024 * 100)
    && rtt * 1024 * 100 < (interval + 1) * volume * gainH
  }

  /** As large a burst as a millisecond of pacing allows, within 64 KiB, but at least `least`. */
  predicate Burst(quantum: nat, interval: nat, least: nat) {
    && least <= quantum <= Max(64 * 1024, least)
    && (quantum > least ==> quantum * interval <= MILLISECONDS * 1024)
    && (quantum < 64 * 1024 ==> MILLISECONDS * 1024 < (quantum + 1) * interval)
  }

  /** The burst that both controllers compute. */
  function BurstFor(interval: nat, least: nat): (quantum: nat)
    requires interval >= 1
    ensures Burst(quantum, interval, least)
  {
    var most := MILLISECONDS * 1024 / interval;
    BurstFits(interval, most, Min(64 * 1024, most), least);
    Max(Min(64 * 1024, most), least)
  }

  lemma BurstFits(interval: nat, most: int, quantum: int, least: nat)
    requires interval >= 1 && most == MILLISECONDS * 1024 / interval && quantum == Min(64 * 1024, most)
    ensures most >= 0 && Burst(Max(quantum, least), interval, least)
  {
    FloorDiv(MILLISECONDS * 1024, interval);
    MulMono(quantum, most, interval, interval);
    if Max(quantum, least) < 64 * 1024 {
      MulMono(most + 1, Max(quantum, least) + 1, interval, interval);
    }
  }

  /** The part of ngtcp2_conn_stat that congestion control reads or writes. */
  class Stat {
    var cwnd: nat
    var ssthresh: nat
    var recoveryStartTs: uint64
    var bytesInFlight: nat
    const mss: nat
    var firstRttSampleTs: uint64
    var smoothedRtt: uint64
    var deliveryRateSec: nat
    var pacingIntervalM: nat
    var sendQuantum: nat

    constructor (mss: nat, cwnd: nat)
      ensures this.mss == mss && this.cwnd == cwnd && recoveryStartTs == UINT64_MAX
    {
      this.mss, this.cwnd := mss, cwnd;
      recoveryStartTs := UINT64_MAX;
    }

    /** conn_reset_conn_stat_cc. */
    method ResetCongestion(initialRtt: uint64)
      modifies this
      ensures cwnd == InitialCwnd(mss) && ssthresh == recoveryStartTs == firstRttSampleTs == UINT64_MAX
      ensures smoothedRtt == initialRtt && bytesInFlight == deliveryRateSec == pacingIntervalM == 0
      ensures sendQuantum == 65536
    {
      smoothedRtt, firstRttSampleTs := initialRtt, UINT64_MAX;
      cwnd, ssthresh, recoveryStartTs := InitialCwnd(mss), UINT64_MAX, UINT64_MAX;
      bytesInFlight, deliveryRateSec, pacingIntervalM, sendQuantum := 0, 0, 0, 64 * 1024;
    }

    /** The packet was sent when recovery began or before. */
    predicate InCongestionRecovery(sentTs: uint64)
      reads `recoveryStartTs
      ensures InCongestionRecovery(sentTs) <==> sentTs <= recoveryStartTs < UINT64_MAX
    {
      recoveryStartTs != UINT64_MAX && sentTs <= recoveryStartTs
    }
  }

  /** The rate sample and the sampler's counters, written by the rest of the connection. */
  class Sampler {
    var delivered: nat
    var lost: nat
    var appLimited: nat
    var isCwndLimited: bool
    var rsDelivered: nat
    var rsPriorDelivered: nat
    var rsTxInFlight: nat
    var rsLost: nat
    var rsIsAppLimited: bool

    constructor () { }
  }
}
