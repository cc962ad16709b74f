/** The BBR congestion controller: its state machine, its model updates and its control of the
    congestion window and of pacing.

    Fields that the source sets together are grouped into records.  The random source is not
    modelled: what it returns is unconstrained within its range.  The rate sample and the sampler's
    counters are whatever the Sampler holds when a handler runs.  Window and rate quantities are
    unbounded. */
module Bbr {
  import opened Arith
  import opened ConnStat
  import opened Common
  import opened WindowFilter

  const PROBE_RTT_INTERVAL: int := 5 * SECONDS
  const MIN_RTT_FILTERLEN: int := 10 * SECONDS
  const PROBE_RTT_DURATION: int := 200 * MILLISECONDS
  const MAX_DRAIN_ROUNDS: nat := 3
  const MAX_BW_FILTERLEN: nat := 2
  const EXTRA_ACKED_FILTERLEN: nat := 10
  const INF: nat := UINT64_MAX

  datatype State = Startup | Drain | ProbeBwDown | ProbeBwCruise | ProbeBwRefill | ProbeBwUp | ProbeRtt

  datatype AckPhase = ProbeStarting | ProbeStopping | ProbeFeedback | Refilling

  /** The gains that belong to each state, in hundredths. */
  function PacingGain(s: State): nat {
    match s
    case Startup => 277
    case Drain => 50
    case ProbeBwDown => 90
    case ProbeBwCruise => 100
    case ProbeBwRefill => 100
    case ProbeBwUp => 125
    case ProbeRtt => 100
  }

  function CwndGain(s: State): nat {
    match s
    case ProbeBwUp => 225
    case ProbeRtt => 50
    case _ => 200
  }

  predicate InProbeBw(s: State) { s.ProbeBwDown? || s.ProbeBwCruise? || s.ProbeBwRefill? || s.ProbeBwUp? }

  predicate IsProbingBw(s: State) { s.Startup? || s.ProbeBwRefill? || s.ProbeBwUp? }

  /** The states that are entered only once the pipe was found full. */
  predicate NeedsFullPipe(s: State) { s.Drain? || InProbeBw(s) }

  function MinPipeCwnd(mss: nat): nat { 4 * mss }

  // ----- the parts of the controller

  /** A state and the gains in force. */
  datatype Mode = Mode(state: State, pacingGainH: nat, cwndGainH: nat)

  predicate GainsFit(m: Mode) { m.pacingGainH == PacingGain(m.state) && m.cwndGainH == CwndGain(m.state) }

  /** A bandwidth and a volume in flight. */
  datatype Bounds = Bounds(bw: nat, inflight: nat)

  const UNBOUNDED: Bounds := Bounds(INF, INF)

  datatype Signals = Signals(lossInRound: bool, latest: Bounds)

  datatype LossRound = LossRound(delivered: nat, start: bool, bytes: nat, events: nat)

  datatype Round = Round(count: nat, start: bool)

  datatype FullPipe = FullPipe(bw: nat, count: nat, now: bool)

  datatype Undo = Undo(state: State, shortterm: Bounds, inflightLongterm: nat)

  datatype Recovery = Recovery(active: bool, round: nat)

  datatype Measured = Measured(maxBw: nat, bwFilter: Filter, extraAcked: nat, extraFilter: Filter)

  /** The samples that the two filters have seen. */
  datatype Histories = Histories(bw: History, extra: History)

  datatype Aggregation = Aggregation(start: nat, delivered: nat)

  /** Raising the long-term bound: bytes per unit of growth, rounds, bytes not yet used, and
      whether losses are to be judged. */
  datatype ProbeUp = ProbeUp(cnt: nat, rounds: nat, acks: nat, samples: bool)

  /** The ProbeBW cycle: when it began, how long to wait and for how many rounds, what its
      acknowledgements are about, and the delivery at which the current round ends. */
  datatype Cycle = Cycle(stamp: nat, wait: nat, rounds: nat, phase: AckPhase, nextRound: nat)

  datatype Volumes = Volumes(bdp: nat, offloadBudget: nat, maxInflight: nat)

  datatype MinRtt = MinRtt(rtt: nat, stamp: nat)

  datatype RttProbe = RttProbe(
    expired: bool, minDelay: nat, minStamp: nat, doneStamp: nat, roundDone: bool, idleRestart: bool)

  /** A round trip measured at `stamp` is out of the ten-second window. */
  predicate Expired(stamp: nat, ts: uint64) { ts > (stamp + MIN_RTT_FILTERLEN) % TWO64 }

  // ----- the short-term bounds

  predicate KeptOrLifted(was: Bounds, now: Bounds) { now == was || now == UNBOUNDED }

  /** Where losses cut the bounds to: 70% of them, or of `base` where there were none, but not below
      the latest deliveries. */
  function CutTo(was: Bounds, base: Bounds, latest: Bounds): Bounds {
    Bounds(Max(latest.bw, (if was.bw == INF then base.bw else was.bw) * 7 / 10),
           Max(latest.inflight, (if was.inflight == INF then base.inflight else was.inflight) * 7 / 10))
  }

  /** The bounds are kept or lifted; in a round with losses outside probing they are cut or lifted. */
  predicate BoundsStep(was: Bounds, now: Bounds, lossy: bool, base: Bounds, latest: Bounds) {
    now == UNBOUNDED || now == if lossy then CutTo(was, base, latest) else was
  }

  function Larger(a: Bounds, b: Bounds): Bounds { Bounds(Max(a.bw, b.bw), Max(a.inflight, b.inflight)) }

  // ----- the volume in flight at which loss became excessive

  predicate InflightTooHigh(lost: nat, txInFlight: nat) { lost * 100 > txInFlight * 2 }

  /** The first x bytes of the packet count as sent and lost, and the rate is at most 2%. */
  predicate PrefixTolerable(lostPrev: nat, inflightPrev: nat, x: nat) {
    !InflightTooHigh(lostPrev + x, inflightPrev + x)
  }

  /** bbr_inflight_at_loss. */
  function InflightAtLoss(pktlen: nat, txInFlight: nat, lost: nat): nat
    requires pktlen <= txInFlight && pktlen <= lost
  {
    var inflightPrev, lostPrev := txInFlight - pktlen, lost - pktlen;
    if inflightPrev * 2 < lostPrev * 100 then inflightPrev
    else inflightPrev + (inflightPrev * 2 - lostPrev * 100) / 98
  }

  /** When a lost packet makes the loss rate exceed 2%, the estimate points into that packet;
      if the loss before it was within the threshold, the estimate is the largest volume, up to
      which the packet's bytes can be counted as sent and lost with the rate still at most 2%. */
  lemma InflightAtLossExact(pktlen: nat, txInFlight: nat, lost: nat)
    requires pktlen <= txInFlight && pktlen <= lost && InflightTooHigh(lost, txInFlight)
    ensures var e := InflightAtLoss(pktlen, txInFlight, lost);
            var inflightPrev, lostPrev := txInFlight - pktlen, lost - pktlen;
            && inflightPrev <= e && (pktlen > 0 ==> e < txInFlight)
            && (if InflightTooHigh(lostPrev, inflightPrev) then e == inflightPrev
                else forall x: nat :: PrefixTolerable(lostPrev, inflightPrev, x) <==> inflightPrev + x <= e)
  {
    var inflightPrev, lostPrev := txInFlight - pktlen, lost - pktlen;
    var budget := inflightPrev * 2 - lostPrev * 100;
    if budget >= 0 {
      forall x: nat ensures PrefixTolerable(lostPrev, inflightPrev, x) <==> x <= budget / 98 {
        assert PrefixTolerable(lostPrev, inflightPrev, x) <==> 98 * x <= budget;
      }
    }
  }

  // ----- steps

  /** What a handler leaves behind, for statements about runs. */
  datatype View = View(state: State, full: bool, pacing: nat, cwnd: nat, prior: nat, entry: nat)

  /** What any handler other than reset may do.  ProbeRTT remembers the window it was entered with. */
  predicate StepOk(a: View, b: View, floor: nat) {
    && (a.full ==> b.full)
    && (!b.full ==> b.pacing <= a.pacing)
    && (a.cwnd >= floor ==> b.cwnd >= floor)
    && (b.state.ProbeRtt? ==> if a.state.ProbeRtt? then b.entry == a.entry && b.prior >= a.prior else b.entry >= a.cwnd)
  }

  /** The order in which states are passed through; one acknowledgement may pass through several. */
  function Phase(s: State): nat {
    match s
    case Startup => 0
    case Drain => 1
    case ProbeBwDown => 2
    case ProbeBwCruise => 3
    case ProbeBwRefill => 4
    case ProbeBwUp => 5
    case ProbeRtt => 6
  }

  /** From Startup over Drain into the ProbeBW cycle, and around it. */
  predicate Forward(a: State, b: State) {
    a == b || Phase(a) < Phase(b) <= 4 || (a.ProbeBwRefill? && b.ProbeBwUp?) || (a.ProbeBwUp? && b.ProbeBwDown?)
  }

  /** The state after ProbeRTT. */
  function AfterProbeRtt(full: bool): State { if full then ProbeBwCruise else Startup }

  /** The transitions of an acknowledgement. */
  predicate AckEdge(a: State, b: State, full: bool) {
    b.ProbeRtt? || if a.ProbeRtt? then b == AfterProbeRtt(full) else Forward(a, b)
  }

  /** What decides the transitions of the ProbeBW cycle: the pipe was found full; a round starts; it is
      time to probe; no more than the model's volume is in flight; there is headroom below the long-term
      bound; that bound holds the window back. */
  datatype Guards = Guards(
    fullNow: bool, roundStart: bool, probeDue: bool, drained: bool, headroom: bool, held: bool)

  /** The next state of the ProbeBW cycle. */
  function NextInCycle(s: State, g: Guards): (s': State)
    requires InProbeBw(s)
    ensures InProbeBw(s') && Forward(s, s')
  {
    if s.ProbeBwUp? then (if g.fullNow && !g.held then ProbeBwDown else ProbeBwUp)
    else if s.ProbeBwRefill? then (if g.roundStart then ProbeBwUp else ProbeBwRefill)
    else if g.probeDue then ProbeBwRefill
    else if s.ProbeBwDown? && g.headroom && g.drained then ProbeBwCruise
    else s
  }

  /** Which transitions an acknowledgement does make: into ProbeRTT exactly when that is due, out of it
      exactly when it is over; otherwise from refilling to probing up with a new round, and to
      refilling when the time to probe has come. */
  predicate Progress(s: State, s': State, rttDue: bool, rttOver: bool, roundStart: bool, timer: bool) {
    && (if s.ProbeRtt? then s'.ProbeRtt? <==> !rttOver else s'.ProbeRtt? <==> rttDue)
    && (s.ProbeBwRefill? && !rttDue ==> s' == if roundStart then ProbeBwUp else ProbeBwRefill)
    && ((s.ProbeBwDown? || s.ProbeBwCruise?) && !rttDue && timer ==> s'.ProbeBwRefill?)
  }

  /** ProbeRTT is over: 200 ms and a round have passed since the pipe was drained. */
  predicate RttOver(p: RttProbe, roundStart: bool, ts: uint64) {
    p.doneStamp != INF && ts > p.doneStamp && (p.roundDone || roundStart)
  }

  /** The full-pipe estimate after a round: it starts over with 25% growth, and the third round in a
      row without it finds the pipe full. */
  function FullAfter(f: FullPipe, roundStart: bool, appLimited: bool, rate: nat): FullPipe {
    if f.now || !roundStart || appLimited then f
    else if rate * 100 >= f.bw * 125 then FullPipe(rate, 0, false)
    else FullPipe(f.bw, f.count + 1, f.count >= 2)
  }

  /** It is time to probe for bandwidth: by the clock, or when a Reno flow would have. */
  predicate ProbeDue(c: Cycle, target: nat, mss: nat, ts: uint64)
    requires mss > 0
  {
    ts > (c.stamp + c.wait) % TWO64 || c.rounds >= Min(target / mss, 63)
  }

  class Controller {
    const cstat: Stat
    const rst: Sampler
    const initialCwnd: nat

    var mode: Mode
    var fullBwReached: bool
    var full: FullPipe
    var undo: Undo
    var round: Round
    var drainStartRound: nat
    var signals: Signals
    var lossRound: LossRound
    var shortterm: Bounds
    var inflightLongterm: nat
    var recovery: Recovery
    var measured: Measured
    var aggregation: Aggregation
    var bw: nat
    var probeUp: ProbeUp
    var cycle: Cycle
    var cycleCount: nat
    var minRtt: MinRtt
    var rttProbe: RttProbe
    var priorCwnd: nat
    var volumes: Volumes
    /** The window when ProbeRTT was last entered. */
    ghost var entryCwnd: nat
    ghost var histories: Histories

    ghost function Now(): View
      reads `mode, `fullBwReached, `priorCwnd, `entryCwnd, cstat`pacingIntervalM, cstat`cwnd
    {
      View(mode.state, fullBwReached, cstat.pacingIntervalM, cstat.cwnd, priorCwnd, entryCwnd)
    }

    /** What holds throughout the processing of an event. */
    ghost predicate Core()
      reads `mode, `undo, `fullBwReached, `probeUp, `priorCwnd, `entryCwnd, cstat`pacingIntervalM
    {
      && cstat.mss > 0 && initialCwnd > 0 && GainsFit(mode)
      && (NeedsFullPipe(mode.state) || NeedsFullPipe(undo.state) ==> fullBwReached)
      && probeUp.rounds <= 30 && probeUp.cnt >= 1 && cstat.pacingIntervalM >= 1
      && (mode.state.ProbeRtt? ==> priorCwnd >= entryCwnd)
    }

    /** Draining takes at most `most` rounds. */
    ghost predicate Draining(most: nat)
      reads `mode, `round, `drainStartRound
    {
      mode.state.Drain? ==> drainStartRound <= round.count <= drainStartRound + most
    }

    ghost predicate Filters()
      reads `measured, `histories, `cycleCount, `round
    {
      BwTracked(measured, histories.bw, cycleCount) && ExtraTracked(measured, histories.extra, round.count)
    }

    /** The bandwidth is the best estimate of its filter, which runs on cycles. */
    static ghost predicate BwTracked(m: Measured, h: History, now: nat) {
      Tracks(m.bwFilter, h) && Before(h.log, now) && m.maxBw == Best(m.bwFilter, h)
    }

    /** The aggregation is the best estimate of its filter, which runs on rounds. */
    static ghost predicate ExtraTracked(m: Measured, h: History, now: nat) {
      Tracks(m.extraFilter, h) && Before(h.log, now) && m.extraAcked == Best(m.extraFilter, h)
    }

    /** What holds between events. */
    ghost predicate Valid()
      reads this, cstat
    {
      Core() && Draining(MAX_DRAIN_ROUNDS) && Filters()
    }

    // ----- entering states

    method EnterStartup()
      modifies `mode
      ensures mode == Mode(Startup, PacingGain(Startup), CwndGain(Startup))
    {
      mode := Mode(Startup, 277, 200);
    }

    method EnterDrain()
      modifies `mode, `drainStartRound
      ensures mode.state == Drain && GainsFit(mode) && drainStartRound == round.count
    {
      mode := Mode(Drain, 50, 200);
      drainStartRound := round.count;
    }

    method EnterProbeRtt()
      modifies `mode
      ensures mode.state == ProbeRtt && GainsFit(mode)
    {
      mode := Mode(ProbeRtt, 100, 50);
    }

    method StartProbeBwDown(ts: uint64)
      modifies `mode, `signals, `probeUp, `cycle
      ensures mode.state == ProbeBwDown && GainsFit(mode) && signals == Signals(false, Bounds(0, 0))
      ensures probeUp == old(probeUp).(cnt := INF) && cycle.nextRound == rst.delivered
      ensures cycle.stamp == ts && cycle.phase == ProbeStopping
      ensures cycle.rounds < 2 && 2 * SECONDS <= cycle.wait <= 3 * SECONDS
    {
      signals := Signals(false, Bounds(0, 0));
      probeUp := probeUp.(cnt := INF);
      var rounds: nat :| rounds < 2;
      var wait: nat :| wait < SECONDS + 1;
      cycle := Cycle(ts, 2 * SECONDS + wait, rounds, ProbeStopping, rst.delivered);
      mode := Mode(ProbeBwDown, 90, 200);
    }

    method StartProbeBwCruise()
      modifies `mode
      ensures mode.state == ProbeBwCruise && GainsFit(mode)
    {
      mode := Mode(ProbeBwCruise, 100, 200);
    }

    method StartProbeBwRefill()
      modifies `mode, `shortterm, `probeUp, `cycle
      ensures mode.state == ProbeBwRefill && GainsFit(mode) && shortterm == UNBOUNDED
      ensures probeUp == old(probeUp).(rounds := 0, acks := 0)
      ensures cycle == old(cycle).(phase := Refilling, nextRound := rst.delivered)
    {
      shortterm := UNBOUNDED;
      probeUp := probeUp.(rounds := 0, acks := 0);
      cycle := cycle.(phase := Refilling, nextRound := rst.delivered);
      mode := Mode(ProbeBwRefill, 100, 200);
    }

    method StartProbeBwUp()
      requires cstat.mss > 0
      modifies `mode, `full, `probeUp, `cycle
      ensures mode.state == ProbeBwUp && GainsFit(mode) && full == FullPipe(cstat.deliveryRateSec, 0, false)
      ensures cycle == old(cycle).(phase := ProbeStarting, nextRound := rst.delivered)
      ensures probeUp.rounds == Min(old(probeUp.rounds) + 1, 30) && probeUp.cnt >= 1
      ensures probeUp.acks == old(probeUp.acks) && probeUp.samples == old(probeUp.samples)
    {
      cycle := cycle.(phase := ProbeStarting, nextRound := rst.delivered);
      full := FullPipe(cstat.deliveryRateSec, 0, false);
      mode := Mode(ProbeBwUp, 125, 225);
      RaiseInflightLongtermSlope();
    }

    method RaiseInflightLongtermSlope()
      requires cstat.mss > 0
      modifies `probeUp
      ensures probeUp.rounds == Min(old(probeUp.rounds) + 1, 30) && probeUp.cnt >= 1
      ensures probeUp.acks == old(probeUp.acks) && probeUp.samples == old(probeUp.samples)
      ensures probeUp.cnt > 1 ==> probeUp.cnt * cstat.mss * Pow2(old(probeUp.rounds)) <= cstat.cwnd
      ensures cstat.cwnd < (probeUp.cnt + 1) * cstat.mss * Pow2(old(probeUp.rounds))
    {
      var growth := cstat.mss * Pow2(probeUp.rounds);
      SlopeQuotient(cstat.cwnd, cstat.mss, Pow2(probeUp.rounds));
      probeUp := probeUp.(rounds := Min(probeUp.rounds + 1, 30), cnt := Max(cstat.cwnd / growth, 1));
    }

    static lemma SlopeQuotient(cwnd: nat, mss: nat, p: nat)
      requires mss > 0 && p > 0
      ensures mss * p > 0
      ensures var q := cwnd / (mss * p); q >= 0 && q * mss * p <= cwnd < (q + 1) * mss * p
    {
      var g := mss * p;
      MulMono(1, mss, 1, p);
      FloorDiv(cwnd, g);
      var q := cwnd / g;
      assert q * mss * p == q * g;
      assert (q + 1) * mss * p == q * g + g;
    }

    // ----- start and reset

    constructor (cstat: Stat, rst: Sampler, initialTs: uint64)
      requires cstat.mss > 0 && cstat.cwnd > 0
      modifies cstat`pacingIntervalM, cstat`sendQuantum
      ensures this.cstat == cstat && this.rst == rst && initialCwnd == cstat.cwnd
      ensures Valid() && mode.state == Startup && !fullBwReached
    {
      this.cstat, this.rst, initialCwnd := cstat, rst, cstat.cwnd;
      new;
      Reset(initialTs);
    }

    /** bbr_on_init, which is also the reset handler. */
    method Reset(ts: uint64)
      requires cstat.mss > 0 && initialCwnd > 0
      modifies this, cstat`pacingIntervalM, cstat`sendQuantum
      ensures Valid() && mode.state == undo.state == Startup && !fullBwReached && !recovery.active && priorCwnd == 0
      ensures round == Round(0, false) && shortterm == UNBOUNDED && inflightLongterm == INF && probeUp.cnt == INF
      ensures minRtt.rtt == if cstat.firstRttSampleTs == UINT64_MAX then INF else cstat.smoothedRtt
      ensures cstat.sendQuantum == cstat.mss * 10
    {
      ResetMachine();
      ResetModel(ts);
      ResetPacing();
    }

    method ResetModel(ts: uint64)
      requires cycleCount == 0
      modifies `measured, `histories, `round, `cycle, `signals, `lossRound, `shortterm, `inflightLongterm
      modifies `aggregation, `bw, `minRtt, `rttProbe, `priorCwnd, `volumes
      ensures Filters() && round == Round(0, false) && shortterm == UNBOUNDED
      ensures inflightLongterm == INF && priorCwnd == 0
      ensures minRtt.rtt == if cstat.firstRttSampleTs == UINT64_MAX then INF else cstat.smoothedRtt
    {
      ResetSignals();
      ResetBounds();
      ResetTimes(ts);
    }

    method ResetMachine()
      modifies `mode, `undo, `fullBwReached, `full, `probeUp, `cycle, `cycleCount, `recovery, `drainStartRound
      ensures MachineReset()
    {
      fullBwReached, full := false, FullPipe(0, 0, false);
      undo := Undo(Startup, Bounds(0, 0), 0);
      probeUp := ProbeUp(INF, 0, 0, false);
      cycle, cycleCount := Cycle(INF, 0, 0, ProbeStarting, 0), 0;
      recovery, drainStartRound := Recovery(false, INF), 0;
      EnterStartup();
    }

    method ResetSignals()
      requires cycleCount == 0
      modifies `measured, `histories, `round, `cycle, `signals, `lossRound
      ensures Filters() && SignalsReset()
    {
      measured := Measured(0, Init(MAX_BW_FILTERLEN), 0, Init(EXTRA_ACKED_FILTERLEN));
      histories := Histories(EMPTY, EMPTY);
      round := Round(0, false);
      signals, lossRound := Signals(false, Bounds(0, 0)), LossRound(INF, false, 0, 0);
    }

    method ResetBounds()
      modifies `shortterm, `inflightLongterm, `bw, `priorCwnd, `volumes
      ensures BoundsReset()
    {
      shortterm, inflightLongterm := UNBOUNDED, INF;
      bw, priorCwnd, volumes := 0, 0, Volumes(0, 0, 0);
    }

    method ResetTimes(ts: uint64)
      modifies `aggregation, `minRtt, `rttProbe
      ensures TimesReset(ts)
    {
      aggregation := Aggregation(ts, 0);
      minRtt := MinRtt(if cstat.firstRttSampleTs == UINT64_MAX then INF else cstat.smoothedRtt, ts);
      rttProbe := RttProbe(false, INF, ts, INF, false, false);
    }

    method ResetPacing()
      requires initialCwnd > 0
      modifies cstat`pacingIntervalM, cstat`sendQuantum
      ensures cstat.pacingIntervalM >= 1 && cstat.sendQuantum == cstat.mss * 10
    {
      InitPacingRate();
      cstat.sendQuantum := cstat.mss * 10;
    }

    /** Startup with a pipe that is not full, no recovery and nothing to undo. */
    ghost predicate MachineReset()
      reads `mode, `undo, `fullBwReached, `full, `probeUp, `cycle, `cycleCount, `recovery, `drainStartRound
    {
      && mode == Mode(Startup, 277, 200) && !fullBwReached && full == FullPipe(0, 0, false)
      && undo == Undo(Startup, Bounds(0, 0), 0) && recovery == Recovery(false, INF)
      && probeUp == ProbeUp(INF, 0, 0, false) && cycle == Cycle(INF, 0, 0, ProbeStarting, 0)
      && cycleCount == drainStartRound == 0
    }

    /** Nothing is measured, and no round has started. */
    ghost predicate SignalsReset()
      reads `measured, `round, `cycle, `signals, `lossRound
    {
      && measured == Measured(0, Init(MAX_BW_FILTERLEN), 0, Init(EXTRA_ACKED_FILTERLEN))
      && round == Round(0, false)
      && signals == Signals(false, Bounds(0, 0)) && lossRound == LossRound(INF, false, 0, 0)
    }

    /** Nothing is bounded, and no window is saved. */
    ghost predicate BoundsReset()
      reads `shortterm, `inflightLongterm, `bw, `priorCwnd, `volumes
    {
      && shortterm == UNBOUNDED && inflightLongterm == INF
      && bw == priorCwnd == 0 && volumes == Volumes(0, 0, 0)
    }

    ghost predicate TimesReset(ts: uint64)
      reads `aggregation, `minRtt, `rttProbe, cstat`firstRttSampleTs, cstat`smoothedRtt
    {
      && aggregation == Aggregation(ts, 0) && rttProbe == RttProbe(false, INF, ts, INF, false, false)
      && minRtt == MinRtt(if cstat.firstRttSampleTs == UINT64_MAX then INF else cstat.smoothedRtt, ts)
    }

    method InitPacingRate()
      requires initialCwnd > 0
      modifies cstat`pacingIntervalM
      // the longest interval that still sends 2.77 initial windows per round trip
      ensures LongestInterval(cstat.pacingIntervalM, initialCwnd, PacingGain(Startup),
                              if cstat.firstRttSampleTs == UINT64_MAX then MILLISECONDS else cstat.smoothedRtt)
    {
      var rtt := if cstat.firstRttSampleTs == UINT64_MAX then MILLISECONDS else cstat.smoothedRtt;
      DivTwice(rtt * 1024 * 100, 277, initialCwnd);
      cstat.pacingIntervalM := Max(rtt * 1024 * 100 / 277 / initialCwnd, 1);
    }

    // ----- volumes

    /** The bandwidth-delay product, at least one byte. */
    function Bdp(): nat
      reads `bw, `minRtt
    {
      Max(bw * minRtt.rtt / SECONDS, 1)
    }

    /** A gain of the bandwidth-delay product, or the initial window before any sample. */
    function Volume(gainH: nat): nat
      reads `bw, `minRtt
    {
      if minRtt.rtt == INF then initialCwnd else Bdp() * gainH / 100
    }

    /** A volume raised to what pacing and delayed acknowledgements need. */
    function Quantized(volume: nat): nat
      reads `mode, cstat`sendQuantum
    {
      Max(Max(volume, 3 * cstat.sendQuantum), MinPipeCwnd(cstat.mss))
      + if mode.state.ProbeBwUp? then 2 * cstat.mss else 0
    }

    /** The least that covers the volume, three bursts and four packets, with two packets to spare in
        ProbeBW_UP. */
    lemma QuantizedMeaning(volume: nat, other: nat)
      ensures var spare := if mode.state.ProbeBwUp? then 2 * cstat.mss else 0;
              (volume + spare <= other && 3 * cstat.sendQuantum + spare <= other
               && MinPipeCwnd(cstat.mss) + spare <= other) <==> Quantized(volume) <= other
    {
    }

    /** The volume is the gain times the product of bandwidth and round trip, rounded down twice, and
        the initial window before any sample. */
    lemma VolumeMeaning(gainH: nat)
      ensures minRtt.rtt == INF ==> Volume(gainH) == initialCwnd
      ensures minRtt.rtt != INF ==> 100 * Volume(gainH) <= gainH * Bdp() < 100 * (Volume(gainH) + 1)
      ensures Bdp() >= 1 && bw * minRtt.rtt < (Bdp() + 1) * SECONDS
      ensures Bdp() > 1 ==> Bdp() * SECONDS <= bw * minRtt.rtt
    {
      FloorDiv(Bdp() * gainH, 100);
      FloorDiv(bw * minRtt.rtt, SECONDS);
    }

    /** bbr_bdp_multiple. */
    method BdpMultiple(gainH: nat) returns (r: nat)
      modifies `volumes
      ensures r == Volume(gainH)
      ensures volumes == if minRtt.rtt == INF then old(volumes) else old(volumes).(bdp := Bdp())
    {
      if minRtt.rtt == INF {
        return initialCwnd;
      }
      volumes := volumes.(bdp := Max(bw * minRtt.rtt / SECONDS, 1));
      return volumes.bdp * gainH / 100;
    }

    /** bbr_quantization_budget. */
    method QuantizationBudget(inflight: nat) returns (r: nat)
      modifies `volumes
      ensures r == Quantized(inflight) && volumes == old(volumes).(offloadBudget := 3 * cstat.sendQuantum)
    {
      volumes := volumes.(offloadBudget := 3 * cstat.sendQuantum);
      r := Max(Max(inflight, volumes.offloadBudget), MinPipeCwnd(cstat.mss));
      if mode.state.ProbeBwUp? {
        r := r + 2 * cstat.mss;
      }
    }

    /** bbr_inflight. */
    method Inflight(gainH: nat) returns (r: nat)
      modifies `volumes
      ensures r == Quantized(Volume(gainH))
    {
      var inflight := BdpMultiple(gainH);
      r := QuantizationBudget(inflight);
    }

    /** The long-term bound less 15% or a packet, whichever is more, but at least four packets. */
    function InflightWithHeadroom(): nat
      reads `inflightLongterm
    {
      if inflightLongterm == INF then INF
      else
        var headroom := Max(cstat.mss, inflightLongterm * 15 / 100);
        if inflightLongterm > headroom then Max(inflightLongterm - headroom, MinPipeCwnd(cstat.mss))
        else MinPipeCwnd(cstat.mss)
    }

    /** What the headroom leaves: exactly the bound less the headroom, unless that is below four packets. */
    lemma HeadroomMeaning()
      ensures inflightLongterm == INF ==> InflightWithHeadroom() == INF
      ensures inflightLongterm != INF ==>
                var left := inflightLongterm - Max(cstat.mss, inflightLongterm * 15 / 100);
                var floor := MinPipeCwnd(cstat.mss);
                InflightWithHeadroom() >= left && floor <= InflightWithHeadroom() <= Max(left, floor)
    {
    }

    function TargetInflight(): (r: nat)
      reads `volumes, cstat`cwnd
      ensures r <= volumes.bdp && r <= cstat.cwnd && (r == volumes.bdp || r == cstat.cwnd)
    {
      Min(volumes.bdp, cstat.cwnd)
    }

    // ----- saving and restoring the window

    method SaveCwnd()
      modifies `priorCwnd
      ensures priorCwnd == if !recovery.active && mode.state != ProbeRtt then cstat.cwnd
                           else Max(old(priorCwnd), cstat.cwnd)
    {
      if !recovery.active && mode.state != ProbeRtt {
        priorCwnd := cstat.cwnd;
        return;
      }
      priorCwnd := Max(priorCwnd, cstat.cwnd);
    }

    method RestoreCwnd()
      modifies cstat`cwnd
      ensures cstat.cwnd == Max(old(cstat.cwnd), priorCwnd)
    {
      cstat.cwnd := Max(cstat.cwnd, priorCwnd);
    }

    // ----- the handlers for losses

    /** bbr_cc_on_pkt_lost.  The conditions are the source's assertions. */
    method OnPktLost(pkt: CcPkt, ts: uint64)
      requires Valid()
      requires probeUp.samples ==> pkt.lost <= rst.lost
      requires LossTooHigh(pkt) ==> pkt.pktlen <= rst.lost - pkt.lost && pkt.pktlen <= pkt.txInFlight
      modifies `lossRound, `undo, `inflightLongterm, `mode, `signals, `probeUp, `cycle
      ensures Valid() && StepOk(old(Now()), Now(), MinPipeCwnd(cstat.mss)) && priorCwnd == old(priorCwnd)
      ensures signals.lossInRound || mode.state != old(mode.state)
      // what an undo would return to
      ensures undo == if old(signals.lossInRound) then old(undo)
                      else Undo(old(mode.state), old(shortterm), old(inflightLongterm))
      ensures mode.state == if old(LossTooHigh(pkt)) && old(mode.state).ProbeBwUp? then ProbeBwDown else old(mode.state)
      ensures inflightLongterm == if old(LossTooHigh(pkt)) && !pkt.isAppLimited then LossBound(pkt)
                                  else old(inflightLongterm)
      ensures if old(LossTooHigh(pkt)) then !probeUp.samples else probeUp == old(probeUp)
    {
      HandleLostPacket(pkt, ts);
    }

    /** The long-term bound that a loss leaves while probing. */
    function LossBound(pkt: CcPkt): nat
      reads `volumes, rst, cstat`cwnd
      requires pkt.lost <= rst.lost && pkt.pktlen <= rst.lost - pkt.lost && pkt.pktlen <= pkt.txInFlight
    {
      Max(InflightAtLoss(pkt.pktlen, pkt.txInFlight, rst.lost - pkt.lost), TargetInflight() * 7 / 10)
    }

    /** bbr_handle_lost_packet. */
    method HandleLostPacket(pkt: CcPkt, ts: uint64)
      requires Core()
      requires probeUp.samples ==> pkt.lost <= rst.lost
      requires LossTooHigh(pkt) ==> pkt.pktlen <= rst.lost - pkt.lost && pkt.pktlen <= pkt.txInFlight
      modifies `lossRound, `undo, `inflightLongterm, `mode, `signals, `probeUp, `cycle
      ensures Core()
      ensures signals.lossInRound || mode.state != old(mode.state)
      ensures undo == if old(signals.lossInRound) then old(undo)
                      else Undo(old(mode.state), old(shortterm), old(inflightLongterm))
      ensures mode.state == if old(LossTooHigh(pkt)) && old(mode.state).ProbeBwUp? then ProbeBwDown else old(mode.state)
      ensures inflightLongterm == if old(LossTooHigh(pkt)) && !pkt.isAppLimited then LossBound(pkt)
                                  else old(inflightLongterm)
      ensures if old(LossTooHigh(pkt)) then !probeUp.samples else probeUp == old(probeUp)
    {
      NoteLoss();
      if !probeUp.samples {
        return;
      }
      var lost := rst.lost - pkt.lost;
      if InflightTooHigh(lost, pkt.txInFlight) {
        HandleInflightTooHigh(InflightAtLoss(pkt.pktlen, pkt.txInFlight, lost), pkt.isAppLimited, ts);
      }
    }

    /** While probing for bandwidth, this packet makes the loss rate exceed 2%. */
    predicate LossTooHigh(pkt: CcPkt)
      reads `probeUp, rst
      requires probeUp.samples ==> pkt.lost <= rst.lost
    {
      probeUp.samples && InflightTooHigh(rst.lost - pkt.lost, pkt.txInFlight)
    }

    method NoteLoss()
      modifies `signals, `lossRound, `undo
      ensures signals == old(signals).(lossInRound := true)
      ensures if old(signals.lossInRound) then undo == old(undo) && lossRound == old(lossRound)
              else undo == Undo(mode.state, shortterm, inflightLongterm)
                   && lossRound == old(lossRound).(delivered := rst.delivered)
    {
      if !signals.lossInRound {
        lossRound := lossRound.(delivered := rst.delivered);
        undo := Undo(mode.state, shortterm, inflightLongterm);
      }
      signals := signals.(lossInRound := true);
    }

    method HandleInflightTooHigh(txInFlight: nat, isAppLimited: bool, ts: uint64)
      requires Core()
      modifies `inflightLongterm, `mode, `signals, `probeUp, `cycle
      ensures Core() && !probeUp.samples
      ensures mode.state == if old(mode.state).ProbeBwUp? then ProbeBwDown else old(mode.state)
      ensures mode.state == old(mode.state) ==> signals == old(signals)
      ensures inflightLongterm == if isAppLimited then old(inflightLongterm)
                                  else Max(txInFlight, TargetInflight() * 7 / 10)
    {
      probeUp := probeUp.(samples := false);
      if !isAppLimited {
        inflightLongterm := Max(txInFlight, TargetInflight() * 7 / 10);
      }
      if mode.state.ProbeBwUp? {
        StartProbeBwDown(ts);
      }
    }

    /** bbr_cc_congestion_event. */
    method CongestionEvent(sentTs: uint64, ts: uint64)
      requires Valid()
      modifies `recovery, `priorCwnd, cstat`recoveryStartTs
      ensures Valid() && StepOk(old(Now()), Now(), MinPipeCwnd(cstat.mss))
      ensures if old(recovery.active || cstat.InCongestionRecovery(sentTs))
              then recovery == old(recovery) && priorCwnd == old(priorCwnd)
                   && cstat.recoveryStartTs == old(cstat.recoveryStartTs)
              else
                && recovery == Recovery(true, if round.start then round.count else round.count + 1)
                && priorCwnd == Max(old(priorCwnd), cstat.cwnd) && cstat.recoveryStartTs == ts
    {
      if recovery.active || cstat.InCongestionRecovery(sentTs) {
        return;
      }
      recovery := Recovery(true, if round.start then round.count else round.count + 1);
      SaveCwnd();
      cstat.recoveryStartTs := ts;
    }

    /** bbr_cc_on_spurious_congestion. */
    method OnSpuriousCongestion()
      requires Valid()
      modifies `recovery, `signals, `shortterm, `inflightLongterm, `mode, `full, `probeUp, `cycle
      modifies cstat`cwnd, cstat`recoveryStartTs
      ensures Valid() && StepOk(old(Now()), Now(), MinPipeCwnd(cstat.mss))
      ensures cstat.cwnd == Max(old(cstat.cwnd), priorCwnd) && cstat.recoveryStartTs == UINT64_MAX
      ensures recovery == Recovery(false, INF) && !signals.lossInRound && full.count == 0 && !full.now
      ensures BoundsRestored(old(shortterm), old(inflightLongterm))
      ensures mode.state == if old(mode.state) != ProbeRtt && (undo.state.Startup? || undo.state.ProbeBwUp?)
                            then undo.state else old(mode.state)
    {
      cstat.recoveryStartTs := UINT64_MAX;
      recovery := Recovery(false, INF);
      RestoreCwnd();
      HandleSpuriousLossDetection();
    }

    /** The bounds are at least what they were before the losses. */
    predicate BoundsRestored(was: Bounds, wasLongterm: nat)
      reads `shortterm, `inflightLongterm, `undo
    {
      && shortterm == Bounds(Max(was.bw, undo.shortterm.bw), Max(was.inflight, undo.shortterm.inflight))
      && inflightLongterm == Max(wasLongterm, undo.inflightLongterm)
    }

    method HandleSpuriousLossDetection()
      requires Core()
      modifies `signals, `shortterm, `inflightLongterm, `mode, `full, `probeUp, `cycle
      ensures Core() && !signals.lossInRound
      ensures full == FullPipe(if mode.state.ProbeBwUp? && !old(mode.state).ProbeBwUp? then cstat.deliveryRateSec
                               else 0, 0, false)
      ensures BoundsRestored(old(shortterm), old(inflightLongterm))
      ensures mode.state == if old(mode.state) != ProbeRtt && (undo.state.Startup? || undo.state.ProbeBwUp?)
                            then undo.state else old(mode.state)
    {
      signals := signals.(lossInRound := false);
      full := FullPipe(0, 0, false);
      shortterm := Bounds(Max(shortterm.bw, undo.shortterm.bw), Max(shortterm.inflight, undo.shortterm.inflight));
      inflightLongterm := Max(inflightLongterm, undo.inflightLongterm);
      if mode.state != ProbeRtt && mode.state != undo.state {
        match undo.state {
          case Startup => EnterStartup();
          case ProbeBwUp => StartProbeBwUp();
          case _ =>
        }
      }
    }

    /** bbr_cc_on_persistent_congestion. */
    method OnPersistentCongestion()
      requires Valid()
      modifies `recovery, `priorCwnd, cstat`cwnd, cstat`recoveryStartTs
      ensures Valid() && StepOk(old(Now()), Now(), MinPipeCwnd(cstat.mss))
      ensures cstat.cwnd == Max(cstat.bytesInFlight + cstat.mss, MinPipeCwnd(cstat.mss))
      ensures priorCwnd == if mode.state.ProbeRtt? then Max(old(priorCwnd), old(cstat.cwnd)) else old(cstat.cwnd)
      ensures cstat.recoveryStartTs == UINT64_MAX && recovery == Recovery(false, INF)
    {
      cstat.recoveryStartTs := UINT64_MAX;
      recovery := Recovery(false, INF);
      SaveCwnd();
      cstat.cwnd := Max(cstat.bytesInFlight + cstat.mss, MinPipeCwnd(cstat.mss));
    }

    // ----- the handler for sent packets

    /** bbr_cc_on_pkt_sent. */
    method OnPktSent(ts: uint64)
      requires Valid()
      modifies `rttProbe, `aggregation, `shortterm, `mode, `signals, `probeUp, `cycle
      modifies cstat`cwnd, cstat`pacingIntervalM
      ensures Valid() && StepOk(old(Now()), Now(), MinPipeCwnd(cstat.mss))
      // leaving ProbeRTT gives back at least the window it was entered with
      ensures mode.state != old(mode.state) ==>
                old(mode.state).ProbeRtt? && mode.state == AfterProbeRtt(fullBwReached) && cstat.cwnd >= entryCwnd
      ensures if cstat.bytesInFlight != 0 || rst.appLimited == 0 then unchanged(this) && unchanged(cstat)
              else
                && rttProbe.idleRestart && aggregation == old(aggregation).(start := ts)
                && (mode.state == old(mode.state) <==> !(old(mode.state).ProbeRtt? && ts > rttProbe.doneStamp != INF))
                && (InProbeBw(mode.state) && InProbeBw(old(mode.state)) && bw > 0 ==>
                      cstat.pacingIntervalM == PacingInterval(100, bw))
    {
      HandleRestartFromIdle(ts);
    }

    /** bbr_handle_restart_from_idle. */
    method HandleRestartFromIdle(ts: uint64)
      requires Core()
      modifies `rttProbe, `aggregation, `shortterm, `mode, `signals, `probeUp, `cycle
      modifies cstat`cwnd, cstat`pacingIntervalM
      ensures Core() && cstat.cwnd >= old(cstat.cwnd)
      ensures !fullBwReached ==> cstat.pacingIntervalM <= old(cstat.pacingIntervalM)
      ensures mode.state != old(mode.state) ==>
                old(mode.state).ProbeRtt? && mode.state == AfterProbeRtt(fullBwReached) && cstat.cwnd >= entryCwnd
      ensures if cstat.bytesInFlight != 0 || rst.appLimited == 0 then unchanged(this) && unchanged(cstat)
              else
                && rttProbe.idleRestart && aggregation == old(aggregation).(start := ts)
                && (mode.state == old(mode.state) <==> !(old(mode.state).ProbeRtt? && ts > rttProbe.doneStamp != INF))
                && (InProbeBw(mode.state) && InProbeBw(old(mode.state)) && bw > 0 ==>
                      cstat.pacingIntervalM == PacingInterval(100, bw))
    {
      if cstat.bytesInFlight == 0 && rst.appLimited != 0 {
        rttProbe, aggregation := rttProbe.(idleRestart := true), aggregation.(start := ts);
        if InProbeBw(mode.state) {
          SetPacingRateWithGain(100);
        } else if mode.state.ProbeRtt? {
          CheckProbeRttDone(ts);
        }
      }
    }

    /** The interval of a gain in hundredths, in 1/1024 ns per byte. */
    static function PacingInterval(gainH: nat, bw: nat): (r: nat)
      requires gainH > 0 && bw > 0
      ensures r >= 1
    {
      Max(SECONDS * 1024 * 100 * 100 / gainH / bw / 99, 1)
    }

    /** It is the longest at which 99% of the scaled bandwidth is still sent. */
    static lemma PacingIntervalLongest(gainH: nat, bw: nat)
      requires gainH > 0 && bw > 0
      ensures var r := PacingInterval(gainH, bw);
              && (r > 1 ==> r * 99 * bw * gainH <= SECONDS * 1024 * 100 * 100)
              && SECONDS * 1024 * 100 * 100 < (r + 1) * 99 * bw * gainH
    {
      DivThrice(SECONDS * 1024 * 100 * 100, gainH, bw, 99);
    }

    method SetPacingRateWithGain(gainH: nat)
      requires gainH > 0 && cstat.pacingIntervalM >= 1
      modifies cstat`pacingIntervalM
      ensures cstat.pacingIntervalM ==
              if bw == 0 then old(cstat.pacingIntervalM)
              else if fullBwReached then PacingInterval(gainH, bw)
              else Min(PacingInterval(gainH, bw), old(cstat.pacingIntervalM))
    {
      if bw == 0 {
        return;
      }
      var interval := PacingInterval(gainH, bw);
      if fullBwReached || interval < cstat.pacingIntervalM {
        cstat.pacingIntervalM := interval;
      }
    }

    // ----- ProbeRTT

    method CheckProbeRttDone(ts: uint64)
      requires Core() && mode.state.ProbeRtt?
      modifies `rttProbe, `shortterm, `mode, `signals, `probeUp, `cycle, cstat`cwnd
      ensures Core()
      ensures if rttProbe.doneStamp != INF && ts > rttProbe.doneStamp
              then
                && mode.state == AfterProbeRtt(fullBwReached)
                && cstat.cwnd == Max(old(cstat.cwnd), priorCwnd) && cstat.cwnd >= entryCwnd
                && shortterm == UNBOUNDED && rttProbe == old(rttProbe).(minStamp := ts)
                && cycle.nextRound == (if fullBwReached then rst.delivered else old(cycle.nextRound))
              else unchanged(this) && unchanged(cstat)
    {
      if rttProbe.doneStamp != INF && ts > rttProbe.doneStamp {
        rttProbe := rttProbe.(minStamp := ts);
        RestoreCwnd();
        shortterm := UNBOUNDED;
        if fullBwReached {
          StartProbeBwDown(ts);
          StartProbeBwCruise();
        } else {
          EnterStartup();
        }
      }
    }

    /** The window of ProbeRTT: half the bandwidth-delay product, but at least four packets. */
    function ProbeRttWindow(): nat
      reads `bw, `minRtt
    {
      Max(Volume(50), MinPipeCwnd(cstat.mss))
    }

    lemma ProbeRttWindowMeaning()
      ensures ProbeRttWindow() >= MinPipeCwnd(cstat.mss)
      ensures minRtt.rtt != INF ==> Bdp() <= 2 * ProbeRttWindow() + 1
      ensures minRtt.rtt != INF && ProbeRttWindow() > MinPipeCwnd(cstat.mss) ==> 2 * ProbeRttWindow() <= Bdp()
      ensures minRtt.rtt == INF ==> ProbeRttWindow() == Max(initialCwnd, MinPipeCwnd(cstat.mss))
    {
      VolumeMeaning(50);
    }

    method ProbeRttCwnd() returns (r: nat)
      modifies `volumes
      ensures r == ProbeRttWindow() && volumes == old(volumes).(bdp := volumes.bdp)
    {
      r := BdpMultiple(50);
      r := Max(r, MinPipeCwnd(cstat.mss));
    }

    /** ProbeRTT is over: 200 ms and a round have passed since the pipe was drained. */
    predicate ProbeRttOver(ts: uint64)
      reads `rttProbe, `round
    {
      RttOver(rttProbe, round.start, ts)
    }

    /** ProbeRTT is due: no shorter round trip was seen for five seconds, and the flow was not idle. */
    predicate ProbeRttDue(ts: uint64)
      reads `rttProbe
    {
      !rttProbe.idleRestart && ts > (rttProbe.minStamp + PROBE_RTT_INTERVAL) % TWO64
    }

    method HandleProbeRtt(ts: uint64)
      requires Core() && mode.state.ProbeRtt?
      modifies `rttProbe, `volumes, `shortterm, `mode, `signals, `probeUp, `cycle
      modifies cstat`cwnd, rst`appLimited
      ensures Core()
      ensures if old(ProbeRttOver(ts))
              then mode.state == AfterProbeRtt(fullBwReached)
                   && cstat.cwnd == Max(old(cstat.cwnd), priorCwnd) >= entryCwnd
              else mode.state.ProbeRtt? && cstat.cwnd == old(cstat.cwnd)
      ensures KeptOrLifted(old(shortterm), shortterm)
      // the 200 ms start when the pipe has drained to the window of ProbeRTT
      ensures rttProbe.doneStamp == if old(rttProbe.doneStamp) == INF && cstat.bytesInFlight <= ProbeRttWindow()
                                    then (ts + PROBE_RTT_DURATION) % TWO64 else old(rttProbe.doneStamp)
      ensures old(rttProbe.doneStamp) != INF ==> rttProbe.roundDone == (old(rttProbe.roundDone) || round.start)
      ensures rttProbe.doneStamp != old(rttProbe.doneStamp) ==> !rttProbe.roundDone && cycle.nextRound == rst.delivered
      ensures rttProbe.minStamp == if old(ProbeRttOver(ts)) then ts else old(rttProbe.minStamp)
      ensures rttProbe.idleRestart == old(rttProbe.idleRestart)
      ensures cycle == old(cycle) || cycle == old(cycle).(nextRound := rst.delivered) || old(ProbeRttOver(ts))
      ensures rst.appLimited == Max(rst.delivered + cstat.bytesInFlight, 1)
    {
      rst.appLimited := Max(rst.delivered + cstat.bytesInFlight, 1);
      if rttProbe.doneStamp == INF {
        var target := ProbeRttCwnd();
        if cstat.bytesInFlight <= target {
          rttProbe := rttProbe.(doneStamp := (ts + PROBE_RTT_DURATION) % TWO64, roundDone := false);
          cycle := cycle.(nextRound := rst.delivered);
          return;
        }
      }
      if rttProbe.doneStamp != INF {
        if round.start {
          rttProbe := rttProbe.(roundDone := true);
        }
        if rttProbe.roundDone {
          CheckProbeRttDone(ts);
        }
      }
    }

    /** The 200 ms of ProbeRTT start at once if the pipe is already drained, a round starts, and the
        ProbeBW cycle's acknowledgements are over. */
    predicate ProbeRttEntered(ts: uint64)
      reads `rttProbe, `cycle, `bw, `minRtt, cstat`bytesInFlight, rst`delivered
    {
      && rttProbe.doneStamp == (if cstat.bytesInFlight <= ProbeRttWindow() then (ts + PROBE_RTT_DURATION) % TWO64
                                else INF)
      && cycle.phase == ProbeStopping && cycle.nextRound == rst.delivered
    }

    method CheckProbeRtt(ts: uint64)
      requires Core()
      modifies `priorCwnd, `entryCwnd, `rttProbe
      modifies `rttProbe, `volumes, `shortterm, `mode, `signals, `probeUp, `cycle
      modifies cstat`cwnd, rst`appLimited
      ensures Core() && cstat.cwnd >= old(cstat.cwnd) && KeptOrLifted(old(shortterm), shortterm)
      // entering saves the window
      ensures !old(mode.state).ProbeRtt? ==>
                && mode.state == (if old(rttProbe.expired && !rttProbe.idleRestart) then ProbeRtt else old(mode.state))
                && (mode.state.ProbeRtt? ==> entryCwnd == old(cstat.cwnd)) && cstat.cwnd == old(cstat.cwnd)
                && priorCwnd == (if mode.state.ProbeRtt? then Max(old(priorCwnd), old(cstat.cwnd)) else old(priorCwnd))
                && (mode.state.ProbeRtt? ==> ProbeRttEntered(ts))
      // leaving gives it back
      ensures old(mode.state).ProbeRtt? ==>
                && mode.state == (if old(ProbeRttOver(ts)) then AfterProbeRtt(fullBwReached) else ProbeRtt)
                && (!mode.state.ProbeRtt? ==> cstat.cwnd >= entryCwnd)
                && priorCwnd == old(priorCwnd) && entryCwnd == old(entryCwnd)
      ensures rttProbe.idleRestart == (old(rttProbe.idleRestart) && rst.rsDelivered == 0)
    {
      if mode.state != ProbeRtt && rttProbe.expired && !rttProbe.idleRestart {
        BeginProbeRtt();
      }
      if mode.state.ProbeRtt? {
        HandleProbeRtt(ts);
      }
      if rst.rsDelivered != 0 {
        rttProbe := rttProbe.(idleRestart := false);
      }
    }

    /** The first branch of bbr_check_probe_rtt. */
    method BeginProbeRtt()
      requires Core() && mode.state != ProbeRtt
      modifies `priorCwnd, `entryCwnd, `rttProbe, `mode, `cycle
      ensures Core() && mode.state.ProbeRtt? && entryCwnd == cstat.cwnd && priorCwnd == Max(old(priorCwnd), cstat.cwnd)
      ensures rttProbe == old(rttProbe).(doneStamp := INF)
      ensures cycle == old(cycle).(phase := ProbeStopping, nextRound := rst.delivered)
    {
      EnterProbeRtt();
      SaveCwnd();
      entryCwnd := cstat.cwnd;
      rttProbe, cycle := rttProbe.(doneStamp := INF), cycle.(phase := ProbeStopping, nextRound := rst.delivered);
    }

    // ----- the handler for acknowledgements

    /** bbr_cc_on_ack_recv. */
    method OnAckRecv(ack: CcAck, ts: uint64)
      requires Valid()
      modifies this, cstat`cwnd, cstat`pacingIntervalM, cstat`sendQuantum, rst`appLimited, rst`isCwndLimited
      ensures Valid() && StepOk(old(Now()), Now(), MinPipeCwnd(cstat.mss)) && priorCwnd >= old(priorCwnd)
      ensures AckEdge(old(mode.state), mode.state, fullBwReached)
      // leaving ProbeRTT gives back the window it was entered with, up to the caps
      ensures old(mode.state).ProbeRtt? && !mode.state.ProbeRtt? ==> cstat.cwnd >= Min(old(entryCwnd), WindowCap())
      // without bytes delivered only recovery can end
      ensures ack.bytesDelivered == 0 ==>
                && mode == old(mode) && cstat.cwnd == old(RecoveredCwnd(ack)) && fullBwReached == old(fullBwReached)
                && priorCwnd == old(priorCwnd) && recovery.active == (old(recovery.active) && !old(EndsRecovery(ack)))
      // with them the window grows up to the caps, and the model follows the samples
      ensures ack.bytesDelivered > 0 ==>
                && round.start == (ack.pktDelivered >= old(cycle.nextRound))
                && Progress(old(mode.state), mode.state, old(ProbeRttDue(ts)), RttOver(old(rttProbe), round.start, ts),
                            round.start, old(TimerDue(ts)))
      ensures ack.bytesDelivered > 0 && !old(mode.state).ProbeRtt? && !mode.state.ProbeRtt? ==>
                cstat.cwnd == Min(ModelCap(), GrownCwnd(old(RecoveredCwnd(ack)), ack))
      ensures ack.bytesDelivered > 0 ==>
                && Controlled() && Modelled(ack) && Paced()
                && (minRtt.rtt > old(minRtt.rtt) ==> Expired(old(minRtt.stamp), ts))
                && MaxBwStep(old(measured.maxBw), old(BestHolds()))
                && BoundsStep(old(shortterm), shortterm, old(Lossy()),
                              Bounds(measured.maxBw, old(RecoveredCwnd(ack))), Larger(old(signals.latest), Seen()))
    {
      HandleRecovery(ack);
      if ack.bytesDelivered == 0 {
        return;
      }
      UpdateOnAck(ack, ts);
    }

    /** bbr_update_on_ack. */
    method UpdateOnAck(ack: CcAck, ts: uint64)
      requires Valid()
      modifies this, cstat`cwnd, cstat`pacingIntervalM, cstat`sendQuantum, rst`appLimited, rst`isCwndLimited
      ensures Valid() && StepOk(old(Now()), Now(), MinPipeCwnd(cstat.mss)) && priorCwnd >= old(priorCwnd)
      ensures Progress(old(mode.state), mode.state, old(ProbeRttDue(ts)), RttOver(old(rttProbe), round.start, ts),
                       round.start, old(TimerDue(ts)))
      ensures round.start == (ack.pktDelivered >= old(cycle.nextRound))
      ensures AckEdge(old(mode.state), mode.state, fullBwReached)
      ensures old(mode.state).ProbeRtt? && !mode.state.ProbeRtt? ==> cstat.cwnd >= Min(old(entryCwnd), WindowCap())
      ensures !old(mode.state).ProbeRtt? && !mode.state.ProbeRtt? ==>
                cstat.cwnd == Min(ModelCap(), GrownCwnd(old(cstat.cwnd), ack))
      ensures Controlled() && Modelled(ack) && Paced()
      ensures minRtt.rtt > old(minRtt.rtt) ==> Expired(old(minRtt.stamp), ts)
      ensures MaxBwStep(old(measured.maxBw), old(BestHolds()))
      ensures BoundsStep(old(shortterm), shortterm, old(Lossy()), Bounds(measured.maxBw, old(cstat.cwnd)),
                         Larger(old(signals.latest), Seen()))
    {
      UpdateModelAndState(ack, ts);
      UpdateControlParameters(ack);
    }

    /** The window after an acknowledgement is between the floor and the caps, and Startup is over if
        the pipe is full. */
    ghost predicate Controlled()
      reads this, cstat
    {
      MinPipeCwnd(cstat.mss) <= cstat.cwnd <= WindowCap() && (mode.state.Startup? ==> !fullBwReached)
    }

    /** The model after an acknowledgement: the bandwidth is bounded by what was measured and by the
        short-term bound, and the measured bandwidth covers the last sample unless the application
        limited it; the round trip is no longer than the last one; the volume allowed in flight is a
        gain of their product and the aggregation. */
    ghost predicate Modelled(ack: CcAck)
      reads this, cstat, rst
    {
      && Measures(ack)
      && volumes.maxInflight == Quantized(Volume(CwndGain(mode.state)) + measured.extraAcked)
    }

    ghost predicate Measures(ack: CcAck)
      reads `bw, `measured, `shortterm, `minRtt, cstat`deliveryRateSec, rst`rsIsAppLimited
    {
      && bw == Min(measured.maxBw, shortterm.bw)
      && (!rst.rsIsAppLimited ==> measured.maxBw >= cstat.deliveryRateSec)
      && (ack.rtt != UINT64_MAX ==> minRtt.rtt <= ack.rtt)
    }

    /** Pacing after an acknowledgement: at the state's gain once the pipe is full and not slower
        before, in bursts of at most a millisecond or two packets. */
    ghost predicate Paced()
      reads `fullBwReached, `bw, `mode, cstat`pacingIntervalM, cstat`sendQuantum
    {
      && (bw > 0 ==>
            var interval := PacingInterval(PacingGain(mode.state), bw);
            cstat.pacingIntervalM <= interval && (fullBwReached ==> cstat.pacingIntervalM == interval))
      && Burst(cstat.sendQuantum, cstat.pacingIntervalM, 2 * cstat.mss)
    }

    /** What was just measured. */
    function Seen(): Bounds
      reads cstat`deliveryRateSec, rst`rsDelivered
    {
      Bounds(cstat.deliveryRateSec, rst.rsDelivered)
    }

    /** A loss round ends with losses in it, outside bandwidth probing. */
    predicate Lossy()
      reads `lossRound, `signals, `mode, rst`rsPriorDelivered
    {
      rst.rsPriorDelivered >= lossRound.delivered && signals.lossInRound && !IsProbingBw(mode.state)
    }

    /** The acknowledgement of a packet that was sent after recovery began ends it. */
    predicate EndsRecovery(ack: CcAck)
      reads `recovery, cstat`recoveryStartTs
    {
      recovery.active && ack.largestPktSentTs != UINT64_MAX && !cstat.InCongestionRecovery(ack.largestPktSentTs)
    }

    /** The window once the end of recovery is taken into account. */
    function RecoveredCwnd(ack: CcAck): nat
      reads `recovery, `priorCwnd, cstat`cwnd, cstat`recoveryStartTs
    {
      if EndsRecovery(ack) then Max(cstat.cwnd, priorCwnd) else cstat.cwnd
    }

    method HandleRecovery(ack: CcAck)
      requires Valid()
      modifies `recovery, cstat`cwnd
      ensures Valid() && StepOk(old(Now()), Now(), MinPipeCwnd(cstat.mss)) && Lossy() == old(Lossy())
      ensures cstat.cwnd == old(RecoveredCwnd(ack))
      ensures recovery == if old(EndsRecovery(ack)) then Recovery(false, INF) else old(recovery)
    {
      if recovery.active && ack.largestPktSentTs != UINT64_MAX && !cstat.InCongestionRecovery(ack.largestPktSentTs) {
        recovery := Recovery(false, INF);
        RestoreCwnd();
      }
    }

    method UpdateModelAndState(ack: CcAck, ts: uint64)
      requires Valid()
      modifies this, cstat`cwnd, rst`appLimited, rst`isCwndLimited
      ensures Valid() && (mode.state.Startup? ==> !fullBwReached)
      ensures fullBwReached == FillsPipe(old(fullBwReached), old(full))
      ensures AckEdge(old(mode.state), mode.state, fullBwReached)
      ensures Progress(old(mode.state), mode.state, old(ProbeRttDue(ts)), RttOver(old(rttProbe), round.start, ts),
                       round.start, old(TimerDue(ts)))
      ensures SignalStep(ack, old(cycle.nextRound), old(round), old(lossRound))
      ensures WindowStep(old(mode.state).ProbeRtt?, old(cstat.cwnd), old(priorCwnd), old(entryCwnd))
      ensures Measures(ack) && MaxBwStep(old(measured.maxBw), old(BestHolds()))
      ensures minRtt.rtt > old(minRtt.rtt) ==> Expired(old(minRtt.stamp), ts)
      ensures BoundsStep(old(shortterm), shortterm, old(Lossy()), Bounds(measured.maxBw, old(cstat.cwnd)),
                         Larger(old(signals.latest), Seen()))
    {
      UpdateMachine(ack, ts);
      UpdateRtt(ack, ts);
    }

    /** A round starts when a packet sent after the last start is acknowledged, and the losses of the
        round are counted. */
    ghost predicate SignalStep(ack: CcAck, nextWas: nat, roundWas: Round, lossWas: LossRound)
      reads `round, `lossRound
    {
      && round == Round(roundWas.count + (if round.start then 1 else 0), ack.pktDelivered >= nextWas)
      && lossRound.events == (if round.start then 0 else lossWas.events) + (if ack.bytesLost > 0 then 1 else 0)
    }

    /** The time to probe for bandwidth has come, by the clock. */
    predicate TimerDue(ts: uint64)
      reads `cycle
    {
      ts > (cycle.stamp + cycle.wait) % TWO64
    }

    /** The signals of an acknowledgement, and the transitions other than those of ProbeRTT. */
    method UpdateMachine(ack: CcAck, ts: uint64)
      requires Valid()
      modifies `lossRound, `round, `measured, `histories, `aggregation, rst`isCwndLimited
      modifies `fullBwReached, `full, `inflightLongterm, `volumes, `drainStartRound, `cycleCount
      modifies `shortterm, `mode, `signals, `probeUp, `cycle
      ensures Valid() && (mode.state.Startup? ==> !fullBwReached)
      ensures fullBwReached == FillsPipe(old(fullBwReached), old(full))
      ensures Forward(old(mode.state), mode.state)
      ensures Progress(old(mode.state), mode.state, false, false, round.start, old(TimerDue(ts)))
      ensures SignalStep(ack, old(cycle.nextRound), old(round), old(lossRound))
      ensures MaxBwStep(old(measured.maxBw), old(BestHolds()))
      ensures BoundsStep(old(shortterm), shortterm, old(Lossy()), Bounds(measured.maxBw, cstat.cwnd),
                         Larger(old(signals.latest), Seen()))
    {
      UpdateSignals(ack, ts);
      UpdateState(ack, ts);
    }

    /** The round-trip times, the transitions of ProbeRTT and the bandwidth of the model. */
    method UpdateRtt(ack: CcAck, ts: uint64)
      requires Core() && Draining(MAX_DRAIN_ROUNDS)
      modifies this, cstat`cwnd, rst`appLimited
      ensures Core() && Draining(MAX_DRAIN_ROUNDS) && fullBwReached == old(fullBwReached)
      ensures measured == old(measured) && histories == old(histories) && cycleCount == old(cycleCount)
      ensures round == old(round)
      ensures lossRound == old(lossRound) && recovery == old(recovery) && inflightLongterm == old(inflightLongterm)
      ensures RttStep(ack, ts, old(Now()), old(minRtt), old(ProbeRttDue(ts)), old(ProbeRttOver(ts)))
      ensures KeptOrLifted(old(shortterm), shortterm)
      ensures bw == Min(measured.maxBw, shortterm.bw)
    {
      StepRtt(ack, ts);
      BoundModel();
    }

    /** What the round-trip part of an acknowledgement does: ProbeRTT is entered or left with its
        windows, and the shortest round trip is updated. */
    ghost predicate RttStep(ack: CcAck, ts: uint64, was: View, rttWas: MinRtt, due: bool, over: bool)
      reads `mode, `fullBwReached, `priorCwnd, `entryCwnd, `minRtt, cstat`cwnd
    {
      && mode.state == (if was.state.ProbeRtt? then (if over then AfterProbeRtt(fullBwReached) else ProbeRtt)
                        else if due then ProbeRtt else was.state)
      && WindowStep(was.state.ProbeRtt?, was.cwnd, was.prior, was.entry)
      && (ack.rtt != UINT64_MAX ==> minRtt.rtt <= ack.rtt)
      && (minRtt.rtt > rttWas.rtt ==> Expired(rttWas.stamp, ts))
    }

    /** Outside ProbeRTT the window stays, and entering remembers it; leaving gives back at least that. */
    ghost predicate WindowStep(inProbeRtt: bool, cwnd: nat, prior: nat, entry: nat)
      reads `mode, `priorCwnd, `entryCwnd, cstat`cwnd
    {
      && cstat.cwnd >= cwnd && priorCwnd >= prior
      && (if inProbeRtt then entryCwnd == entry && (!mode.state.ProbeRtt? ==> cstat.cwnd >= entry)
          else cstat.cwnd == cwnd && (mode.state.ProbeRtt? ==> entryCwnd == cwnd))
    }

    method StepRtt(ack: CcAck, ts: uint64)
      requires Core()
      modifies `minRtt, `priorCwnd, `entryCwnd, `rttProbe
      modifies `rttProbe, `volumes, `shortterm, `mode, `signals, `probeUp, `cycle
      modifies cstat`cwnd, rst`appLimited
      ensures Core() && KeptOrLifted(old(shortterm), shortterm)
      ensures RttStep(ack, ts, old(Now()), old(minRtt), old(ProbeRttDue(ts)), old(ProbeRttOver(ts)))
    {
      UpdateMinRtt(ack, ts);
      CheckProbeRtt(ts);
    }

    /** bbr_advance_latest_delivery_signals and bbr_bound_bw_for_model. */
    method BoundModel()
      modifies `signals, `bw
      ensures bw == Min(measured.maxBw, shortterm.bw)
      ensures signals == if lossRound.start then old(signals).(latest := Seen()) else old(signals)
    {
      if lossRound.start {
        signals := signals.(latest := Bounds(cstat.deliveryRateSec, rst.rsDelivered));
      }
      bw := Min(measured.maxBw, shortterm.bw);
    }

    // ----- signals

    /** Delivery signals, congestion signals and ACK aggregation. */
    method UpdateSignals(ack: CcAck, ts: uint64)
      requires Filters()
      modifies `lossRound, `signals, `cycle, `round, `measured, `histories
      modifies `shortterm, `aggregation
      modifies rst`isCwndLimited
      ensures Filters()
      ensures round == Round(old(round.count) + (if round.start then 1 else 0),
                             ack.pktDelivered >= old(cycle.nextRound))
      ensures cycle == if round.start then old(cycle).(rounds := old(cycle.rounds) + 1, nextRound := rst.delivered)
                       else old(cycle)
      ensures (cycle.stamp + cycle.wait) % TWO64 == old((cycle.stamp + cycle.wait) % TWO64)
      ensures rst.isCwndLimited == (old(rst.isCwndLimited) && !round.start)
      ensures MaxBwStep(old(measured.maxBw), old(BestHolds()))
      ensures BoundsStep(old(shortterm), shortterm, old(Lossy()), Bounds(measured.maxBw, cstat.cwnd),
                         Larger(old(signals.latest), Seen()))
      ensures lossRound.events == (if round.start then 0 else old(lossRound.events))
                                  + if ack.bytesLost > 0 then 1 else 0
      ensures aggregation == old(NextAggregation(ack, ts))
      ensures histories.extra.log == old(histories.extra.log) + [Estimate(old(NextExcess(ack, ts)), round.count)]
    {
      UpdateLatestDeliverySignals();
      UpdateCongestionSignals(ack);
      UpdateAckAggregation(ack, ts);
    }

    method UpdateCongestionSignals(ack: CcAck)
      requires Filters()
      modifies `lossRound, `signals, `cycle, `round, `measured, `histories, `shortterm
      modifies rst`isCwndLimited
      ensures Filters() && histories.extra == old(histories.extra)
      ensures round == Round(old(round.count) + (if round.start then 1 else 0),
                             ack.pktDelivered >= old(cycle.nextRound))
      ensures cycle == if round.start then old(cycle).(rounds := old(cycle.rounds) + 1, nextRound := rst.delivered)
                       else old(cycle)
      ensures rst.isCwndLimited == (old(rst.isCwndLimited) && !round.start)
      ensures MaxBwStep(old(measured.maxBw), old(BestHolds()))
      ensures BoundsStep(old(shortterm), shortterm,
                         old(lossRound.start && signals.lossInRound) && !IsProbingBw(mode.state),
                         Bounds(measured.maxBw, cstat.cwnd), old(signals.latest))
      ensures lossRound == old(lossRound).(bytes := lossRound.bytes, events := lossRound.events)
      ensures lossRound.events == (if round.start then 0 else old(lossRound.events))
                                  + if ack.bytesLost > 0 then 1 else 0
    {
      UpdateRound(ack);
      UpdateMaxBw();
      UpdateLossSignals(ack);
    }

    method UpdateLatestDeliverySignals()
      modifies `lossRound, `signals
      ensures signals == old(signals).(latest := Larger(old(signals.latest), Seen()))
      ensures lossRound.start <==> rst.rsPriorDelivered >= old(lossRound.delivered)
      ensures lossRound.delivered == if lossRound.start then rst.delivered else old(lossRound.delivered)
      ensures lossRound.bytes == old(lossRound.bytes) && lossRound.events == old(lossRound.events)
    {
      signals := signals.(latest := Bounds(Max(signals.latest.bw, cstat.deliveryRateSec),
                                           Max(signals.latest.inflight, rst.rsDelivered)));
      lossRound := lossRound.(start := false);
      if rst.rsPriorDelivered >= lossRound.delivered {
        lossRound := lossRound.(delivered := rst.delivered, start := true);
      }
    }

    method UpdateRound(ack: CcAck)
      modifies `cycle, `round, `lossRound, rst`isCwndLimited
      ensures round == Round(old(round.count) + (if round.start then 1 else 0),
                             ack.pktDelivered >= old(cycle.nextRound))
      ensures lossRound == if round.start then old(lossRound).(bytes := 0, events := 0) else old(lossRound)
      ensures cycle == if round.start then old(cycle).(rounds := old(cycle.rounds) + 1, nextRound := rst.delivered)
                       else old(cycle)
      ensures rst.isCwndLimited == (old(rst.isCwndLimited) && !round.start)
    {
      if ack.pktDelivered >= cycle.nextRound {
        round := Round(round.count + 1, true);
        cycle := cycle.(rounds := cycle.rounds + 1, nextRound := rst.delivered);
        lossRound := lossRound.(bytes := 0, events := 0);
        rst.isCwndLimited := false;
        return;
      }
      round := round.(start := false);
    }

    /** The best bandwidth estimate is still in its window of two cycles. */
    ghost predicate BestHolds()
      reads `measured, `histories, `cycleCount
    {
      && histories.bw.log != [] && measured.bwFilter.e0.sample < UINT64_MAX
      && InWindow(measured.bwFilter, measured.bwFilter.e0, cycleCount)
    }

    /** The maximum bandwidth covers the sample unless the application limited it, rises to no more
        than the sample, and does not fall while its estimate is in the window. */
    ghost predicate MaxBwStep(was: nat, holds: bool)
      reads `measured, cstat`deliveryRateSec, rst`rsIsAppLimited
    {
      && (!rst.rsIsAppLimited ==> measured.maxBw >= cstat.deliveryRateSec)
      && measured.maxBw <= Max(was, cstat.deliveryRateSec)
      && (holds ==> measured.maxBw >= was)
    }

    /** The maximum bandwidth is the best estimate over the last two cycles; samples below it count
        only if the application did not limit them. */
    method UpdateMaxBw()
      requires Filters()
      modifies `measured, `histories
      ensures Filters()
      ensures measured == old(measured).(maxBw := measured.maxBw, bwFilter := measured.bwFilter)
      ensures histories == old(histories).(bw := histories.bw)
      ensures if cstat.deliveryRateSec == 0 || (cstat.deliveryRateSec < old(measured.maxBw) && rst.rsIsAppLimited)
              then measured == old(measured) && histories == old(histories)
              else Updated(old(measured.bwFilter), old(histories.bw), measured.bwFilter, histories.bw,
                           Estimate(cstat.deliveryRateSec, cycleCount))
      ensures MaxBwStep(old(measured.maxBw), old(BestHolds()))
    {
      if cstat.deliveryRateSec != 0 && (cstat.deliveryRateSec >= measured.maxBw || !rst.rsIsAppLimited) {
        var f;
        ghost var h;
        f, h := Update(measured.bwFilter, histories.bw, cstat.deliveryRateSec, cycleCount);
        measured, histories := measured.(bwFilter := f, maxBw := f.e0.sample), histories.(bw := h);
      }
    }

    /** The losses of the round are counted, and at the end of a loss round the bounds may fall. */
    method UpdateLossSignals(ack: CcAck)
      modifies `lossRound, `signals, `shortterm
      ensures lossRound == old(lossRound).(bytes := old(lossRound.bytes) + ack.bytesLost,
                                           events := old(lossRound.events) + if ack.bytesLost > 0 then 1 else 0)
      ensures signals == old(signals).(lossInRound := old(signals.lossInRound) && !lossRound.start)
      ensures BoundsStep(old(shortterm), shortterm,
                         lossRound.start && old(signals.lossInRound) && !IsProbingBw(mode.state),
                         Bounds(measured.maxBw, cstat.cwnd), signals.latest)
    {
      if ack.bytesLost > 0 {
        lossRound := lossRound.(bytes := lossRound.bytes + ack.bytesLost, events := lossRound.events + 1);
      }
      if !lossRound.start {
        return;
      }
      if !IsProbingBw(mode.state) && signals.lossInRound {
        LowerBounds();
      }
      signals := signals.(lossInRound := false);
    }

    /** bbr_init_lower_bounds and bbr_loss_lower_bounds. */
    method LowerBounds()
      modifies `shortterm
      ensures shortterm == CutTo(old(shortterm), Bounds(measured.maxBw, cstat.cwnd), signals.latest)
      // nothing below the latest deliveries, at least 70% of what there was, and less than before if that was more
      ensures shortterm.bw >= signals.latest.bw && shortterm.inflight >= signals.latest.inflight
      ensures 10 * shortterm.bw + 9 >= 7 * if old(shortterm.bw) == INF then measured.maxBw else old(shortterm.bw)
      ensures 10 * shortterm.inflight + 9 >=
                7 * if old(shortterm.inflight) == INF then cstat.cwnd else old(shortterm.inflight)
      ensures old(shortterm.bw) != INF && shortterm.bw > signals.latest.bw ==>
                10 * shortterm.bw <= 7 * old(shortterm.bw)
    {
      var bw := if shortterm.bw == INF then measured.maxBw else shortterm.bw;
      var inflight := if shortterm.inflight == INF then cstat.cwnd else shortterm.inflight;
      shortterm := Bounds(Max(signals.latest.bw, bw * 7 / 10), Max(signals.latest.inflight, inflight * 7 / 10));
    }

    /** The bytes that should have arrived since the aggregation epoch began. */
    function ExpectedDelivered(ts: uint64): nat
      reads `bw, `aggregation
    {
      bw * ((ts - aggregation.start) % TWO64) / SECONDS
    }

    lemma ExpectedMeaning(ts: uint64)
      requires aggregation.start <= ts
      ensures ExpectedDelivered(ts) * SECONDS <= bw * (ts - aggregation.start) < (ExpectedDelivered(ts) + 1) * SECONDS
    {
      FloorDiv(bw * (ts - aggregation.start), SECONDS);
    }

    /** The epoch after an acknowledgement; one that has fallen behind starts over. */
    function NextAggregation(ack: CcAck, ts: uint64): Aggregation
      reads `bw, `aggregation
    {
      if aggregation.delivered <= ExpectedDelivered(ts) then Aggregation(ts, ack.bytesDelivered)
      else Aggregation(aggregation.start, aggregation.delivered + ack.bytesDelivered)
    }

    /** How far the deliveries, with this acknowledgement, run ahead of the bandwidth; at most a window. */
    function NextExcess(ack: CcAck, ts: uint64): nat
      reads `bw, `aggregation, cstat`cwnd
    {
      Min(cstat.cwnd, ack.bytesDelivered + Max(0, aggregation.delivered - ExpectedDelivered(ts)))
    }

    method Excess(ack: CcAck, ts: uint64) returns (extra: nat)
      modifies `aggregation
      ensures aggregation == old(NextAggregation(ack, ts)) && extra == old(NextExcess(ack, ts))
    {
      var expected := ExpectedDelivered(ts);
      if aggregation.delivered <= expected {
        aggregation, expected := Aggregation(ts, 0), 0;
      }
      aggregation := aggregation.(delivered := aggregation.delivered + ack.bytesDelivered);
      extra := 0;
      if aggregation.delivered > expected {
        extra := Min(aggregation.delivered - expected, cstat.cwnd);
      }
    }

    /** The aggregation is the best estimate of how far deliveries run ahead of the bandwidth, over
        one round, or ten once the pipe is full. */
    method UpdateAckAggregation(ack: CcAck, ts: uint64)
      requires Filters()
      modifies `aggregation, `measured, `histories
      ensures Filters() && measured.maxBw == old(measured.maxBw)
      ensures aggregation == old(NextAggregation(ack, ts))
      ensures Updated(old(measured.extraFilter).(windowLength := if fullBwReached then EXTRA_ACKED_FILTERLEN else 1),
                      old(histories.extra), measured.extraFilter, histories.extra,
                      Estimate(old(NextExcess(ack, ts)), round.count))
    {
      var extra := Excess(ack, ts);
      var f := measured.extraFilter.(windowLength := if fullBwReached then EXTRA_ACKED_FILTERLEN else 1);
      ghost var h;
      f, h := Update(f, histories.extra, extra, round.count);
      measured, histories := measured.(extraFilter := f, extraAcked := f.e0.sample), histories.(extra := h);
    }

    // ----- transitions

    /** The transitions of an acknowledgement other than those of ProbeRTT. */
    method UpdateState(ack: CcAck, ts: uint64)
      requires Core() && (mode.state.Drain? ==> drainStartRound <= round.count)
      modifies `fullBwReached, `full, `inflightLongterm, `volumes, `drainStartRound, `cycleCount
      modifies `shortterm, `mode, `signals, `probeUp, `cycle
      ensures Core() && Draining(MAX_DRAIN_ROUNDS)
      ensures cycleCount >= old(cycleCount) && KeptOrLifted(old(shortterm), shortterm)
      ensures fullBwReached == FillsPipe(old(fullBwReached), old(full)) && (mode.state.Startup? ==> !fullBwReached)
      ensures Forward(old(mode.state), mode.state) && (mode.state.ProbeRtt? <==> old(mode.state).ProbeRtt?)
      ensures Progress(old(mode.state), mode.state, false, false, round.start, old(TimerDue(ts)))
    {
      LeaveStartup(ts);
      ghost var g := UpdateProbeBwCyclePhase(ack, ts);
    }

    /** No more than the model's volume is in flight. */
    predicate Drained()
      reads `mode, `bw, `minRtt, cstat`bytesInFlight, cstat`sendQuantum
    {
      cstat.bytesInFlight <= Quantized(Volume(100))
    }

    /** The pipe counts as full: it already did, or it was just found full, or the losses are high. */
    ghost predicate FillsPipe(was: bool, f: FullPipe)
      reads `round, `lossRound, `recovery, cstat`deliveryRateSec, rst`rsIsAppLimited, rst`rsLost, rst`rsTxInFlight
    {
      was || HighLoss() || (!f.now && FullAfter(f, round.start, rst.rsIsAppLimited, cstat.deliveryRateSec).now)
    }

    /** Drain has lasted for more than three rounds. */
    predicate DrainedLong()
      reads `round, `drainStartRound
    {
      round.count > drainStartRound + MAX_DRAIN_ROUNDS
    }

    /** From Startup to Drain, and from Drain to ProbeBW. */
    method LeaveStartup(ts: uint64)
      requires Core() && (mode.state.Drain? ==> drainStartRound <= round.count)
      modifies `fullBwReached, `full, `inflightLongterm, `volumes, `drainStartRound
      modifies `mode, `signals, `probeUp, `cycle
      ensures Core() && Draining(MAX_DRAIN_ROUNDS)
      ensures full == FullAfter(old(full), round.start, rst.rsIsAppLimited, cstat.deliveryRateSec)
      ensures fullBwReached == FillsPipe(old(fullBwReached), old(full))
      ensures mode.state == if old(mode.state.Drain?) || (old(mode.state.Startup?) && fullBwReached)
                            then (if old(Drained() || (mode.state.Drain? && DrainedLong())) then ProbeBwDown else Drain)
                            else old(mode.state)
      ensures InProbeBw(old(mode.state)) ==> mode == old(mode) && cycle == old(cycle) && volumes == old(volumes)
    {
      CheckFullBwReached();
      CheckStartupDone();
      CheckDrainDone(ts);
    }

    method CheckFullBwReached()
      modifies `full, `fullBwReached
      // the pipe is found full exactly at the third round in a row without 25% growth
      ensures full == FullAfter(old(full), round.start, rst.rsIsAppLimited, cstat.deliveryRateSec)
      ensures fullBwReached == (old(fullBwReached) || (full.now && !old(full.now)))
      ensures full.now && !old(full.now) <==>
                && !old(full.now) && round.start && !rst.rsIsAppLimited && old(full.count) >= 2
                && cstat.deliveryRateSec * 100 < old(full.bw) * 125
    {
      if full.now || !round.start || rst.rsIsAppLimited {
        return;
      }
      if cstat.deliveryRateSec * 100 >= full.bw * 125 {
        full := FullPipe(cstat.deliveryRateSec, 0, false);
        return;
      }
      full := full.(count := full.count + 1, now := full.count + 1 >= 3);
      if full.now {
        fullBwReached := true;
      }
    }

    /** Startup ends early: many losses in the round, and too much of the flight lost. */
    predicate HighLoss()
      reads `lossRound, `recovery, `round, rst`rsLost, rst`rsTxInFlight
    {
      && lossRound.events > 6 && !(recovery.active && round.count <= recovery.round)
      && InflightTooHigh(rst.rsLost, rst.rsTxInFlight)
    }

    method CheckStartupDone()
      requires Core() && (mode.state.Drain? ==> drainStartRound <= round.count)
      modifies `fullBwReached, `inflightLongterm, `volumes, `mode, `drainStartRound
      ensures Core() && (mode.state.Drain? ==> drainStartRound <= round.count)
      ensures fullBwReached == (old(fullBwReached) || HighLoss())
      ensures mode.state == if old(mode.state).Startup? && fullBwReached then Drain else old(mode.state)
      ensures inflightLongterm == if fullBwReached && !old(fullBwReached)
                                  then Max(old(Volume(mode.cwndGainH)), signals.latest.inflight)
                                  else old(inflightLongterm)
      ensures old(fullBwReached) ==> volumes == old(volumes)
      ensures drainStartRound == if mode.state != old(mode.state) then round.count else old(drainStartRound)
    {
      if !fullBwReached && lossRound.events > 6 && !(recovery.active && round.count <= recovery.round)
        && InflightTooHigh(rst.rsLost, rst.rsTxInFlight)
      {
        fullBwReached := true;
        var volume := BdpMultiple(mode.cwndGainH);
        inflightLongterm := Max(volume, signals.latest.inflight);
      }
      if mode.state.Startup? && fullBwReached {
        EnterDrain();
      }
    }

    method CheckDrainDone(ts: uint64)
      requires Core() && (mode.state.Drain? ==> drainStartRound <= round.count)
      modifies `volumes, `mode, `signals, `probeUp, `cycle
      ensures Core() && Draining(MAX_DRAIN_ROUNDS)
      // the queue is empty, or three rounds have passed
      ensures mode.state == if old(mode.state.Drain? && (cstat.bytesInFlight <= Quantized(Volume(100))
                                                         || round.count > drainStartRound + MAX_DRAIN_ROUNDS))
                            then ProbeBwDown else old(mode.state)
      ensures !old(mode.state).Drain? ==> unchanged(this)
    {
      if mode.state.Drain? {
        var inflight := Inflight(100);
        if cstat.bytesInFlight <= inflight || round.count > drainStartRound + MAX_DRAIN_ROUNDS {
          StartProbeBwDown(ts);
        }
      }
    }

    method UpdateProbeBwCyclePhase(ack: CcAck, ts: uint64) returns (ghost g: Guards)
      requires Core()
      modifies `full, `inflightLongterm, `volumes, `cycleCount
      modifies `shortterm, `mode, `signals, `probeUp, `cycle
      ensures Core() && KeptOrLifted(old(shortterm), shortterm)
      ensures Progress(old(mode.state), mode.state, false, false, round.start, old(TimerDue(ts)))
      // the next state of the cycle, with the long-term bound that the acknowledgement leads to
      ensures mode.state == if InProbeBw(old(mode.state)) then NextInCycle(old(mode.state), g) else old(mode.state)
      ensures InProbeBw(old(mode.state)) ==>
                && g.fullNow == old(full.now) && g.roundStart == round.start && g.drained == old(Drained())
                && g.probeDue == old(ProbeDue(cycle, TargetInflight(), cstat.mss, ts))
                && g.held == (rst.isCwndLimited && cstat.cwnd >= inflightLongterm)
                && g.headroom == (cstat.bytesInFlight <= InflightWithHeadroom())
      // that bound covers what was in flight without high loss, and cycles are counted
      ensures inflightLongterm >= old(inflightLongterm)
      ensures fullBwReached && !InflightTooHigh(rst.rsLost, rst.rsTxInFlight) ==>
                inflightLongterm >= Min(rst.rsTxInFlight, INF)
      ensures cycleCount == old(cycleCount) +
                if fullBwReached && old(cycle.phase).ProbeStopping? && round.start && InProbeBw(old(mode.state))
                   && !rst.rsIsAppLimited
                then 1 else 0
    {
      g := CycleGuards(ts);
      if !fullBwReached {
        return;
      }
      AdaptLongtermModel(ack);
      if InProbeBw(mode.state) {
        g := CycleGuards(ts);
        NextPhase(ts);
      }
    }

    /** The guards of the ProbeBW cycle. */
    function CycleGuards(ts: uint64): Guards
      reads this, cstat, rst
      requires cstat.mss > 0
    {
      Guards(full.now, round.start, ProbeDue(cycle, TargetInflight(), cstat.mss, ts), Drained(),
             cstat.bytesInFlight <= InflightWithHeadroom(), rst.isCwndLimited && cstat.cwnd >= inflightLongterm)
    }

    /** The switch of bbr_update_probe_bw_cycle_phase. */
    method NextPhase(ts: uint64)
      requires Core() && InProbeBw(mode.state)
      modifies `full, `volumes, `shortterm, `mode, `signals, `probeUp, `cycle
      ensures Core() && mode.state == NextInCycle(old(mode.state), old(CycleGuards(ts)))
      ensures KeptOrLifted(old(shortterm), shortterm)
      ensures Progress(old(mode.state), mode.state, false, false, round.start, old(TimerDue(ts)))
      ensures probeUp.samples == (old(probeUp.samples) || (old(mode.state).ProbeBwRefill? && round.start))
    {
      match mode.state {
        case ProbeBwDown =>
          var probe := IsTimeToProbeBw(ts);
          if !probe {
            var cruise := IsTimeToCruise();
            if cruise {
              StartProbeBwCruise();
            }
          }
        case ProbeBwCruise =>
          var probe := IsTimeToProbeBw(ts);
        case ProbeBwRefill =>
          if round.start {
            probeUp := probeUp.(samples := true);
            StartProbeBwUp();
          }
        case ProbeBwUp =>
          var down := IsTimeToGoDown();
          if down {
            StartProbeBwDown(ts);
          }
        case _ =>
      }
    }

    method IsTimeToProbeBw(ts: uint64) returns (probe: bool)
      requires cstat.mss > 0
      modifies `mode, `shortterm, `probeUp, `cycle
      ensures probe == old(ProbeDue(cycle, TargetInflight(), cstat.mss, ts))
      ensures if probe
              then
                && mode.state == ProbeBwRefill && GainsFit(mode) && shortterm == UNBOUNDED
                && probeUp == old(probeUp).(rounds := 0, acks := 0)
              else unchanged(this)
    {
      probe := ts > (cycle.stamp + cycle.wait) % TWO64 || cycle.rounds >= Min(TargetInflight() / cstat.mss, 63);
      if probe {
        StartProbeBwRefill();
      }
    }

    method IsTimeToCruise() returns (cruise: bool)
      modifies `volumes
      ensures cruise == old(cstat.bytesInFlight <= InflightWithHeadroom() && Drained())
    {
      var inflight := Inflight(100);
      cruise := cstat.bytesInFlight <= Min(InflightWithHeadroom(), inflight);
    }

    method IsTimeToGoDown() returns (down: bool)
      modifies `full
      ensures down == old(full.now && !(rst.isCwndLimited && cstat.cwnd >= inflightLongterm))
      ensures full == if rst.isCwndLimited && cstat.cwnd >= inflightLongterm
                      then FullPipe(cstat.deliveryRateSec, 0, false)
                      else old(full)
    {
      if rst.isCwndLimited && cstat.cwnd >= inflightLongterm {
        full := FullPipe(cstat.deliveryRateSec, 0, false);
        return false;
      }
      return full.now;
    }

    method AdaptLongtermModel(ack: CcAck)
      requires cstat.mss > 0 && probeUp.rounds <= 30 && probeUp.cnt >= 1
      modifies `cycle, `cycleCount, `inflightLongterm, `probeUp
      ensures probeUp.rounds <= 30 && probeUp.cnt >= 1
      ensures cycle == old(cycle).(phase := if old(cycle.phase).ProbeStarting? && round.start then ProbeFeedback
                                               else old(cycle.phase))
      // a ProbeBW cycle is counted when the acknowledgements of its probing have all come in
      ensures cycleCount == old(cycleCount) +
                if cycle.phase.ProbeStopping? && round.start && InProbeBw(mode.state) && !rst.rsIsAppLimited
                then 1 else 0
      ensures inflightLongterm >= old(inflightLongterm)
      ensures !InflightTooHigh(rst.rsLost, rst.rsTxInFlight) ==> inflightLongterm >= Min(rst.rsTxInFlight, INF)
      ensures InflightTooHigh(rst.rsLost, rst.rsTxInFlight) || old(inflightLongterm) == INF ==>
                inflightLongterm == old(inflightLongterm)
      // otherwise it covers what was in flight, and grows further only by the bytes acknowledged in ProbeBW_UP
      ensures !InflightTooHigh(rst.rsLost, rst.rsTxInFlight) && old(inflightLongterm) != INF ==>
                var base := Max(old(inflightLongterm), rst.rsTxInFlight);
                if mode.state.ProbeBwUp? && rst.isCwndLimited && cstat.cwnd >= base
                then Earned(inflightLongterm - base, old(probeUp.cnt), probeUp.acks,
                            old(probeUp.acks) + ack.bytesDelivered)
                else inflightLongterm == base
    {
      if cycle.phase.ProbeStarting? && round.start {
        cycle := cycle.(phase := ProbeFeedback);
      }
      if cycle.phase.ProbeStopping? && round.start && InProbeBw(mode.state) && !rst.rsIsAppLimited {
        cycleCount := cycleCount + 1;
      }
      if !InflightTooHigh(rst.rsLost, rst.rsTxInFlight) {
        if inflightLongterm == INF {
          return;
        }
        inflightLongterm := Max(inflightLongterm, rst.rsTxInFlight);
        if mode.state.ProbeBwUp? {
          ProbeInflightLongtermUpward(ack);
        }
      }
    }

    method ProbeInflightLongtermUpward(ack: CcAck)
      requires cstat.mss > 0 && probeUp.rounds <= 30 && probeUp.cnt >= 1
      modifies `inflightLongterm, `probeUp
      ensures probeUp.rounds <= 30 && probeUp.cnt >= 1 && inflightLongterm >= old(inflightLongterm)
      // every probeUp.cnt acknowledged bytes raise the bound by one; the remainder is carried over
      ensures rst.isCwndLimited && cstat.cwnd >= old(inflightLongterm) ==>
                Earned(inflightLongterm - old(inflightLongterm), old(probeUp.cnt), probeUp.acks,
                       old(probeUp.acks) + ack.bytesDelivered)
      ensures !rst.isCwndLimited || cstat.cwnd < old(inflightLongterm) ==>
                inflightLongterm == old(inflightLongterm) && probeUp == old(probeUp)
      ensures rst.isCwndLimited && cstat.cwnd >= old(inflightLongterm) ==> Upward(old(probeUp), ack.bytesDelivered)
    {
      if !rst.isCwndLimited || cstat.cwnd < inflightLongterm {
        return;
      }
      probeUp := probeUp.(acks := probeUp.acks + ack.bytesDelivered);
      if probeUp.cnt != INF && probeUp.acks >= probeUp.cnt * cstat.mss {
        var delta, rest := Earn(probeUp.acks, probeUp.cnt);
        probeUp := probeUp.(acks := rest);
        inflightLongterm := inflightLongterm + delta;
      }
      if round.start {
        RaiseInflightLongtermSlope();
      }
    }

    /** Bytes beyond a packet's worth of growth are used up, and each round the slope rises. */
    ghost predicate Upward(was: ProbeUp, delivered: nat)
      reads `probeUp, `round
    {
      && (was.cnt != INF && was.acks + delivered >= was.cnt * cstat.mss ==> probeUp.acks < was.cnt)
      && (was.cnt == INF || was.acks + delivered < was.cnt * cstat.mss ==> probeUp.acks == was.acks + delivered)
      && probeUp.rounds == (if round.start then Min(was.rounds + 1, 30) else was.rounds)
      && (!round.start ==> probeUp.cnt == was.cnt) && probeUp.samples == was.samples
    }

    static ghost predicate Earned(delta: int, cnt: nat, rest: nat, acks: nat) { delta * cnt + rest == acks }

    static method Earn(acks: nat, cnt: nat) returns (delta: nat, rest: nat)
      requires cnt > 0
      ensures Earned(delta, cnt, rest, acks) && rest < cnt
    {
      FloorDiv(acks, cnt);
      delta := acks / cnt;
      rest := acks - delta * cnt;
    }

    /** The shortest round trip is at most this one, and rises only when it is ten seconds old. */
    method UpdateMinRtt(ack: CcAck, ts: uint64)
      modifies `minRtt, `rttProbe
      ensures rttProbe.expired <==> ts > (old(rttProbe.minStamp) + PROBE_RTT_INTERVAL) % TWO64
      // the delay that ProbeRTT looks at starts over every five seconds, the round trip every ten
      ensures rttProbe.minDelay == if ack.rtt == UINT64_MAX then old(rttProbe.minDelay)
                                   else if rttProbe.expired then ack.rtt else Min(ack.rtt, old(rttProbe.minDelay))
      ensures rttProbe.minStamp == if ack.rtt != UINT64_MAX && (rttProbe.expired || ack.rtt < old(rttProbe.minDelay))
                                   then ts else old(rttProbe.minStamp)
      ensures minRtt == if Expired(old(minRtt.stamp), ts) || rttProbe.minDelay < old(minRtt.rtt)
                        then MinRtt(rttProbe.minDelay, rttProbe.minStamp) else old(minRtt)
      ensures ack.rtt != UINT64_MAX ==> minRtt.rtt <= ack.rtt
      ensures minRtt.rtt > old(minRtt.rtt) ==> Expired(old(minRtt.stamp), ts)
      ensures rttProbe.doneStamp == old(rttProbe.doneStamp) && rttProbe.roundDone == old(rttProbe.roundDone)
      ensures rttProbe.idleRestart == old(rttProbe.idleRestart)
    {
      rttProbe := rttProbe.(expired := ts > (rttProbe.minStamp + PROBE_RTT_INTERVAL) % TWO64);
      if ack.rtt != UINT64_MAX && (ack.rtt < rttProbe.minDelay || rttProbe.expired) {
        rttProbe := rttProbe.(minDelay := ack.rtt, minStamp := ts);
      }
      if rttProbe.minDelay < minRtt.rtt || ts > (minRtt.stamp + MIN_RTT_FILTERLEN) % TWO64 {
        minRtt := MinRtt(rttProbe.minDelay, rttProbe.minStamp);
      }
    }

    // ----- control

    method UpdateControlParameters(ack: CcAck)
      requires Valid()
      modifies `volumes, cstat`cwnd, cstat`pacingIntervalM, cstat`sendQuantum
      ensures Valid() && Paced() && (!fullBwReached ==> cstat.pacingIntervalM <= old(cstat.pacingIntervalM))
      ensures MinPipeCwnd(cstat.mss) <= cstat.cwnd <= WindowCap()
      ensures volumes.maxInflight == Quantized(Volume(mode.cwndGainH) + measured.extraAcked)
      ensures !mode.state.ProbeRtt? ==>
                && cstat.cwnd >= Min(old(cstat.cwnd), WindowCap())
                && cstat.cwnd == Min(ModelCap(), GrownCwnd(old(cstat.cwnd), ack))
    {
      SetPacingRateWithGain(mode.pacingGainH);
      SetSendQuantum();
      SetCwnd(ack);
    }

    method SetSendQuantum()
      requires cstat.pacingIntervalM >= 1
      modifies cstat`sendQuantum
      ensures Burst(cstat.sendQuantum, cstat.pacingIntervalM, 2 * cstat.mss)
    {
      cstat.sendQuantum := BurstFor(cstat.pacingIntervalM, 2 * cstat.mss);
    }

    /** The cap of bbr_bound_cwnd_for_model. */
    function ModelCap(): nat
      reads `mode, `inflightLongterm, `shortterm
    {
      var cap :=
        if InProbeBw(mode.state) && !mode.state.ProbeBwCruise? then inflightLongterm
        else if mode.state.ProbeRtt? || mode.state.ProbeBwCruise? then InflightWithHeadroom()
        else INF;
      Max(Min(cap, shortterm.inflight), MinPipeCwnd(cstat.mss))
    }

    /** The cap is not below the bounds of the state, and above them only to leave four packets. */
    lemma ModelCapMeaning()
      ensures MinPipeCwnd(cstat.mss) <= ModelCap() <= Max(shortterm.inflight, MinPipeCwnd(cstat.mss))
      ensures InProbeBw(mode.state) ==> ModelCap() <= Max(inflightLongterm, MinPipeCwnd(cstat.mss))
      ensures mode.state.Startup? || mode.state.Drain? ==> ModelCap() >= Min(INF, shortterm.inflight)
      ensures InProbeBw(mode.state) && !mode.state.ProbeBwCruise? ==>
                ModelCap() >= Min(inflightLongterm, shortterm.inflight)
      ensures mode.state.ProbeRtt? || mode.state.ProbeBwCruise? ==>
                && ModelCap() >= Min(InflightWithHeadroom(), shortterm.inflight)
                && ModelCap() <= Max(InflightWithHeadroom(), MinPipeCwnd(cstat.mss))
    {
    }

    /** All that bounds the window outside ProbeRTT. */
    function WindowCap(): nat
      reads `mode, `inflightLongterm, `shortterm, `fullBwReached, `volumes
    {
      if fullBwReached then Min(volumes.maxInflight, ModelCap()) else ModelCap()
    }

    /** The window that the bytes delivered alone make of cwnd: it grows by them, up to the model's
        volume once the pipe is full, and until that volume is reached before. */
    function GrownCwnd(cwnd: nat, ack: CcAck): nat
      reads `fullBwReached, `volumes, rst`delivered
    {
      Max(MinPipeCwnd(cstat.mss),
          if fullBwReached then Min(cwnd + ack.bytesDelivered, volumes.maxInflight)
          else if cwnd < volumes.maxInflight || rst.delivered < initialCwnd then cwnd + ack.bytesDelivered
          else cwnd)
    }

    /** The window grows by the bytes delivered unless the model's volume stops it. */
    lemma GrownCwndMeaning(cwnd: nat, ack: CcAck)
      ensures var w := GrownCwnd(cwnd, ack);
              var floor := MinPipeCwnd(cstat.mss);
              && floor <= w <= Max(cwnd + ack.bytesDelivered, floor)
              && (fullBwReached ==> w <= Max(volumes.maxInflight, floor))
              && (cwnd + ack.bytesDelivered <= volumes.maxInflight ==> w >= cwnd + ack.bytesDelivered)
              && (cwnd < volumes.maxInflight || (!fullBwReached && rst.delivered < initialCwnd) ==>
                    w >= if fullBwReached then Min(cwnd + ack.bytesDelivered, volumes.maxInflight)
                         else cwnd + ack.bytesDelivered)
              && (!fullBwReached && cwnd >= volumes.maxInflight && rst.delivered >= initialCwnd ==>
                    w == Max(cwnd, floor))
              && (fullBwReached && cwnd >= volumes.maxInflight ==> w == Max(volumes.maxInflight, floor))
    {
    }

    method SetCwnd(ack: CcAck)
      modifies `volumes, cstat`cwnd
      ensures volumes.maxInflight == Quantized(Volume(mode.cwndGainH) + measured.extraAcked)
      ensures var grown := GrownCwnd(old(cstat.cwnd), ack);
              cstat.cwnd == Min(ModelCap(), if mode.state.ProbeRtt? then Min(grown, ProbeRttWindow()) else grown)
      ensures MinPipeCwnd(cstat.mss) <= cstat.cwnd <= WindowCap()
      ensures !mode.state.ProbeRtt? ==> cstat.cwnd >= Min(old(cstat.cwnd), WindowCap())
    {
      GrowCwnd(ack);
      BoundCwnd();
    }

    /** bbr_bound_cwnd_for_probe_rtt and bbr_bound_cwnd_for_model. */
    method BoundCwnd()
      modifies `volumes, cstat`cwnd
      ensures cstat.cwnd == Min(ModelCap(), if mode.state.ProbeRtt? then Min(old(cstat.cwnd), ProbeRttWindow())
                                            else old(cstat.cwnd))
      ensures volumes == old(volumes).(bdp := volumes.bdp)
    {
      if mode.state.ProbeRtt? {
        var bound := ProbeRttCwnd();
        cstat.cwnd := Min(cstat.cwnd, bound);
      }
      cstat.cwnd := Min(cstat.cwnd, ModelCap());
    }

    /** The first half of bbr_set_cwnd: growth by the bytes delivered, up to the model's volume
        once the pipe is full. */
    method GrowCwnd(ack: CcAck)
      modifies `volumes, cstat`cwnd
      ensures volumes.maxInflight == Quantized(Volume(mode.cwndGainH) + measured.extraAcked)
      ensures cstat.cwnd == GrownCwnd(old(cstat.cwnd), ack)
    {
      var inflight := BdpMultiple(mode.cwndGainH);
      var most := QuantizationBudget(inflight + measured.extraAcked);
      volumes := volumes.(maxInflight := most);
      if fullBwReached {
        cstat.cwnd := Min(cstat.cwnd + ack.bytesDelivered, volumes.maxInflight);
      } else if cstat.cwnd < volumes.maxInflight || rst.delivered < initialCwnd {
        cstat.cwnd := cstat.cwnd + ack.bytesDelivered;
      }
      cstat.cwnd := Max(cstat.cwnd, MinPipeCwnd(cstat.mss));
    }
  }
}
