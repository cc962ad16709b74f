/** Runs of the BBR controller: any sequence of events, each with whatever the rest of the connection
    has measured by then. */
module BbrRun {
  import opened Arith
  import opened ConnStat
  import opened Bbr

  /** What the rest of the connection has written before the event. */
  datatype Env = Env(
    ts: uint64, bytesInFlight: nat, firstRttSampleTs: uint64, smoothedRtt: uint64, deliveryRateSec: nat,
    delivered: nat, lost: nat, appLimited: nat, isCwndLimited: bool,
    rsDelivered: nat, rsPriorDelivered: nat, rsTxInFlight: nat, rsLost: nat, rsIsAppLimited: bool)

  datatype Event =
    | Ack(env: Env, ack: CcAck)
    | Lost(env: Env, pkt: CcPkt)
    | Congestion(env: Env, sentTs: uint64)
    | Spurious(env: Env)
    | Persistent(env: Env)
    | Sent(env: Env)
    | Reset(env: Env)

  // A reset comes with the connection's own reset of its statistics, which writes the initial window.

  /** What the source asserts about a lost packet. */
  predicate WellFormed(e: Event) {
    e.Lost? ==>
      && e.pkt.lost <= e.env.lost
      && (InflightTooHigh(e.env.lost - e.pkt.lost, e.pkt.txInFlight) ==>
            e.pkt.pktlen <= e.env.lost - e.pkt.lost && e.pkt.pktlen <= e.pkt.txInFlight)
  }

  /** What can be seen of the controller between events. */
  datatype Moment = Moment(
    view: View, mode: Mode, undo: State, drainRounds: int, probeUp: ProbeUp, cap: nat,
    lossInRound: bool, recovering: bool, recoveryTs: uint64)

  ghost function MomentOf(c: Controller): Moment
    reads c, c.cstat
  {
    Moment(c.Now(), c.mode, c.undo.state, c.round.count - c.drainStartRound, c.probeUp, c.WindowCap(),
           c.signals.lossInRound, c.recovery.active, c.cstat.recoveryStartTs)
  }

  /** What holds between events: the gains are those of the state; Drain and ProbeBW, now or in the
      undo state, need a full pipe; draining takes at most three rounds; nothing that is divided by is
      zero; the window saved in ProbeRTT is not below the window at its entry. */
  predicate Healthy(m: Moment) {
    && GainsFit(m.mode) && m.mode.state == m.view.state
    && (NeedsFullPipe(m.view.state) || NeedsFullPipe(m.undo) ==> m.view.full)
    && (m.view.state.Drain? ==> 0 <= m.drainRounds <= MAX_DRAIN_ROUNDS)
    && m.probeUp.rounds <= 30 && m.probeUp.cnt >= 1 && m.view.pacing >= 1
    && (m.view.state.ProbeRtt? ==> m.view.prior >= m.view.entry)
  }

  /** A congestion event that is not part of the recovery that is already under way. */
  predicate Effective(e: Event, a: Moment) {
    e.Congestion? && !a.recovering && !(a.recoveryTs != UINT64_MAX && e.sentTs <= a.recoveryTs)
  }

  /** The state transitions of each event. */
  predicate Edge(e: Event, a: Moment, b: Moment) {
    match e
    case Ack(_, _) => AckEdge(a.view.state, b.view.state, b.view.full)
    case Lost(_, _) => b.view.state == a.view.state || (a.view.state.ProbeBwUp? && b.view.state.ProbeBwDown?)
    case Congestion(_, _) => b.view.state == a.view.state
    case Spurious(_) =>
      b.view.state == if !a.view.state.ProbeRtt? && (a.undo.Startup? || a.undo.ProbeBwUp?) then a.undo
                      else a.view.state
    case Persistent(_) => b.view.state == a.view.state
    case Sent(_) =>
      b.view.state == a.view.state || (a.view.state.ProbeRtt? && b.view.state == AfterProbeRtt(b.view.full))
    case Reset(_) => b.view.state.Startup? && !b.view.full
  }

  /** What each event does to the windows and to recovery, unless bytes are delivered: the first loss
      of a round notes the state; congestion starts recovery and saves the window, unless it is under
      way; undo and persistent congestion end it. */
  predicate Effect(e: Event, a: Moment, b: Moment, mss: nat) {
    match e
    case Ack(_, ack) =>
      ack.bytesDelivered == 0 ==>
        && b.view.state == a.view.state && b.view.prior == a.view.prior
        && b.view.cwnd == if b.recovering == a.recovering then a.view.cwnd else Max(a.view.cwnd, a.view.prior)
    case Lost(_, _) =>
      b.undo == (if a.lossInRound then a.undo else a.view.state) && (b.lossInRound || b.view.state != a.view.state)
    case Congestion(env, _) =>
      if Effective(e, a)
      then b.recovering && b.recoveryTs == env.ts && b.view.prior == Max(a.view.prior, a.view.cwnd)
      else b == a
    case Spurious(_) => b.view.cwnd == Max(a.view.cwnd, a.view.prior) && !b.recovering && b.recoveryTs == UINT64_MAX
    case Persistent(env) =>
      && b.view.cwnd == Max(env.bytesInFlight + mss, MinPipeCwnd(mss)) && !b.recovering && b.recoveryTs == UINT64_MAX
      && b.view.prior == if a.view.state.ProbeRtt? then Max(a.view.prior, a.view.cwnd) else a.view.cwnd
    case Sent(env) => env.bytesInFlight != 0 || env.appLimited == 0 ==> b == a
    case Reset(_) => b.view.cwnd == InitialCwnd(mss)
  }

  /** What an event does. */
  predicate Follows(e: Event, a: Moment, b: Moment, mss: nat) {
    && Edge(e, a, b) && Effect(e, a, b, mss)
    && (!e.Reset? ==>
          && StepOk(a.view, b.view, MinPipeCwnd(mss))
          && (!e.Persistent? ==> b.view.prior >= a.view.prior)
          && (a.view.state.ProbeRtt? && !b.view.state.ProbeRtt? ==> b.view.cwnd >= Min(a.view.entry, b.cap)))
    && (e.Ack? && e.ack.bytesDelivered > 0 ==>
          MinPipeCwnd(mss) <= b.view.cwnd <= b.cap && (b.view.state.Startup? ==> !b.view.full))
  }

  ghost predicate IsRun(es: seq<Event>, ms: seq<Moment>, mss: nat) {
    && |ms| == |es| + 1
    && (forall i :: 0 <= i < |ms| ==> Healthy(ms[i]))
    && (forall i :: 0 <= i < |es| ==> Follows(es[i], ms[i], ms[i+1], mss))
  }

  predicate Measured(c: Controller, env: Env)
    reads c.rst, c.cstat
  {
    && c.cstat.bytesInFlight == env.bytesInFlight && c.cstat.deliveryRateSec == env.deliveryRateSec
    && c.cstat.firstRttSampleTs == env.firstRttSampleTs && c.cstat.smoothedRtt == env.smoothedRtt
    && c.rst.delivered == env.delivered && c.rst.lost == env.lost
    && c.rst.appLimited == env.appLimited && c.rst.isCwndLimited == env.isCwndLimited
    && c.rst.rsDelivered == env.rsDelivered && c.rst.rsPriorDelivered == env.rsPriorDelivered
    && c.rst.rsTxInFlight == env.rsTxInFlight && c.rst.rsLost == env.rsLost
    && c.rst.rsIsAppLimited == env.rsIsAppLimited
  }

  /** The rest of the connection writes its measurements. */
  method Measure(c: Controller, env: Env)
    modifies c.rst, c.cstat`bytesInFlight, c.cstat`firstRttSampleTs, c.cstat`smoothedRtt, c.cstat`deliveryRateSec
    ensures Measured(c, env)
  {
    c.cstat.bytesInFlight, c.cstat.deliveryRateSec := env.bytesInFlight, env.deliveryRateSec;
    c.cstat.firstRttSampleTs, c.cstat.smoothedRtt := env.firstRttSampleTs, env.smoothedRtt;
    c.rst.delivered, c.rst.lost := env.delivered, env.lost;
    c.rst.appLimited, c.rst.isCwndLimited := env.appLimited, env.isCwndLimited;
    c.rst.rsDelivered, c.rst.rsPriorDelivered := env.rsDelivered, env.rsPriorDelivered;
    c.rst.rsTxInFlight, c.rst.rsLost, c.rst.rsIsAppLimited := env.rsTxInFlight, env.rsLost, env.rsIsAppLimited;
  }

  /** One event on the controller. */
  method Step(c: Controller, e: Event)
    requires c.Valid() && WellFormed(e)
    modifies c, c.cstat, c.rst
    ensures c.Valid() && Healthy(MomentOf(c)) && Follows(e, old(MomentOf(c)), MomentOf(c), c.cstat.mss)
  {
    Measure(c, e.env);
    match e {
      case Ack(env, ack) => HandleAck(c, e);
      case Lost(env, pkt) => HandleLost(c, e);
      case Congestion(env, sentTs) => HandleCongestion(c, e);
      case Spurious(env) => HandleSpurious(c, e);
      case Persistent(env) => HandlePersistent(c, e);
      case Sent(env) => HandleSent(c, e);
      case Reset(env) => HandleReset(c, e);
    }
  }

  method HandleAck(c: Controller, e: Event)
    requires c.Valid() && e.Ack?
    modifies c, c.cstat, c.rst
    ensures c.Valid() && Healthy(MomentOf(c)) && Follows(e, old(MomentOf(c)), MomentOf(c), c.cstat.mss)
  {
    c.OnAckRecv(e.ack, e.env.ts);
  }

  method HandleLost(c: Controller, e: Event)
    requires c.Valid() && e.Lost? && Measured(c, e.env) && WellFormed(e)
    modifies c, c.cstat, c.rst
    ensures c.Valid() && Healthy(MomentOf(c)) && Follows(e, old(MomentOf(c)), MomentOf(c), c.cstat.mss)
  {
    c.OnPktLost(e.pkt, e.env.ts);
  }

  method HandleCongestion(c: Controller, e: Event)
    requires c.Valid() && e.Congestion? && Measured(c, e.env)
    modifies c, c.cstat, c.rst
    ensures c.Valid() && Healthy(MomentOf(c)) && Follows(e, old(MomentOf(c)), MomentOf(c), c.cstat.mss)
  {
    c.CongestionEvent(e.sentTs, e.env.ts);
  }

  method HandleSpurious(c: Controller, e: Event)
    requires c.Valid() && e.Spurious? && Measured(c, e.env)
    modifies c, c.cstat, c.rst
    ensures c.Valid() && Healthy(MomentOf(c)) && Follows(e, old(MomentOf(c)), MomentOf(c), c.cstat.mss)
  {
    c.OnSpuriousCongestion();
  }

  method HandlePersistent(c: Controller, e: Event)
    requires c.Valid() && e.Persistent? && Measured(c, e.env)
    modifies c, c.cstat, c.rst
    ensures c.Valid() && Healthy(MomentOf(c)) && Follows(e, old(MomentOf(c)), MomentOf(c), c.cstat.mss)
  {
    c.OnPersistentCongestion();
  }

  method HandleSent(c: Controller, e: Event)
    requires c.Valid() && e.Sent? && Measured(c, e.env)
    modifies c, c.cstat, c.rst
    ensures c.Valid() && Healthy(MomentOf(c)) && Follows(e, old(MomentOf(c)), MomentOf(c), c.cstat.mss)
  {
    c.OnPktSent(e.env.ts);
  }

  method HandleReset(c: Controller, e: Event)
    requires c.Valid() && e.Reset? && Measured(c, e.env)
    modifies c, c.cstat, c.rst
    ensures c.Valid() && Healthy(MomentOf(c)) && Follows(e, old(MomentOf(c)), MomentOf(c), c.cstat.mss)
  {
    c.cstat.ResetCongestion(e.env.smoothedRtt);
    c.Reset(e.env.ts);
  }

  /** Any sequence of events is a run. */
  method Run(c: Controller, es: seq<Event>) returns (ghost ms: seq<Moment>)
    requires c.Valid() && forall i :: 0 <= i < |es| ==> WellFormed(es[i])
    modifies c, c.cstat, c.rst
    ensures c.Valid() && IsRun(es, ms, c.cstat.mss)
    ensures ms[0] == old(MomentOf(c)) && ms[|es|] == MomentOf(c)
  {
    ms := [MomentOf(c)];
    for k := 0 to |es|
      invariant c.Valid() && IsRun(es[..k], ms, c.cstat.mss)
      invariant ms[0] == old(MomentOf(c)) && ms[k] == MomentOf(c)
    {
      Step(c, es[k]);
      Extend(es, k, ms, MomentOf(c), c.cstat.mss);
      ms := ms + [MomentOf(c)];
    }
    assert es[..|es|] == es;
  }

  lemma Extend(es: seq<Event>, k: nat, ms: seq<Moment>, m: Moment, mss: nat)
    requires k < |es| && IsRun(es[..k], ms, mss) && Healthy(m) && Follows(es[k], ms[k], m, mss)
    ensures IsRun(es[..k+1], ms + [m], mss)
  {
    forall i | 0 <= i < k + 1 ensures Follows(es[..k+1][i], (ms + [m])[i], (ms + [m])[i+1], mss) {
      if i < k { assert Follows(es[..k][i], ms[i], ms[i+1], mss); }
    }
  }

  // ----- what holds over whole runs

  ghost predicate NoReset(es: seq<Event>, i: nat, j: nat)
    requires j <= |es|
  {
    forall k :: i <= k < j ==> !es[k].Reset?
  }

  ghost predicate InProbeRtt(ms: seq<Moment>, i: nat, j: nat)
    requires j <= |ms|
  {
    forall k :: i <= k < j ==> ms[k].view.state.ProbeRtt?
  }

  /** Over any stretch without a reset a full pipe stays full, and the pacing interval does not grow
      until then. */
  lemma {:induction false} RunSafe(es: seq<Event>, ms: seq<Moment>, mss: nat, i: nat, j: nat)
    requires IsRun(es, ms, mss) && i <= j <= |es| && NoReset(es, i, j)
    ensures ms[i].view.full ==> ms[j].view.full
    ensures !ms[j].view.full ==> ms[j].view.pacing <= ms[i].view.pacing
    decreases j - i
  {
    if i < j {
      RunSafe(es, ms, mss, i, j - 1);
      assert Follows(es[j-1], ms[j-1], ms[j-1+1], mss);
    }
  }

  /** The floor of four packets survives everything but a reset, and a reset as well if packets have
      at most 3680 bytes; every acknowledgement that delivers bytes establishes it. */
  lemma {:induction false} FloorForGood(es: seq<Event>, ms: seq<Moment>, mss: nat, i: nat, j: nat)
    requires IsRun(es, ms, mss) && i <= j <= |es| && (mss <= 3680 || NoReset(es, i, j))
    ensures ms[i].view.cwnd >= MinPipeCwnd(mss) ==> ms[j].view.cwnd >= MinPipeCwnd(mss)
    ensures i < j && es[i].Ack? && es[i].ack.bytesDelivered > 0 ==> ms[j].view.cwnd >= MinPipeCwnd(mss)
    decreases j - i
  {
    if i < j {
      assert Follows(es[i], ms[i], ms[i+1], mss);
      InitialCwndHoldsFour(mss);
      FloorForGood(es, ms, mss, i + 1, j);
    }
  }

  /** A reset leaves a window of at least four packets if and only if packets have at most 3680 bytes,
      whatever the window was before. */
  lemma ResetAndFloor(es: seq<Event>, ms: seq<Moment>, mss: nat, i: nat)
    requires IsRun(es, ms, mss) && i < |es| && es[i].Reset?
    ensures ms[i+1].view.cwnd >= MinPipeCwnd(mss) <==> mss <= 3680
  {
    assert Follows(es[i], ms[i], ms[i+1], mss);
    InitialCwndHoldsFour(mss);
  }

  /** Once the pipe was found full, Startup is only re-entered by undoing a loss or by a reset, and
      the next acknowledgement that delivers bytes leaves it again. */
  lemma NoWayBackToStartup(es: seq<Event>, ms: seq<Moment>, mss: nat, i: nat, j: nat)
    requires IsRun(es, ms, mss) && i < j <= |es| && NoReset(es, i, j) && ms[i].view.full
    ensures ms[j].view.state.Startup? && !ms[j-1].view.state.Startup? ==> es[j-1].Spurious?
    ensures es[j-1].Ack? && es[j-1].ack.bytesDelivered > 0 ==> !ms[j].view.state.Startup?
  {
    RunSafe(es, ms, mss, i, j);
    assert Follows(es[j-1], ms[j-1], ms[j-1+1], mss);
  }

  /** While ProbeRTT lasts, the window at its entry is remembered and the saved window never falls,
      whatever happens. */
  lemma {:induction false} ProbeRttRemembers(es: seq<Event>, ms: seq<Moment>, mss: nat, i: nat, j: nat)
    requires IsRun(es, ms, mss) && i <= j <= |es| && NoReset(es, i, j) && InProbeRtt(ms, i, j + 1)
    ensures ms[j].view.entry == ms[i].view.entry && ms[j].view.prior >= ms[i].view.prior
    ensures ms[j].view.prior >= ms[i].view.entry
    decreases j - i
  {
    assert Healthy(ms[j]);
    if i < j {
      ProbeRttRemembers(es, ms, mss, i, j - 1);
      assert Follows(es[j-1], ms[j-1], ms[j-1+1], mss);
    }
  }

  /** The whole of a ProbeRTT: from the moment before it is entered to the moment after it is left,
      the window comes back at least to where it was, up to the caps then in force. */
  lemma {:induction false} ProbeRttRoundTrip(es: seq<Event>, ms: seq<Moment>, mss: nat, i: nat, j: nat)
    requires IsRun(es, ms, mss) && i + 1 < j <= |es| && NoReset(es, i, j)
    requires !ms[i].view.state.ProbeRtt? && InProbeRtt(ms, i + 1, j) && !ms[j].view.state.ProbeRtt?
    ensures ms[j].view.cwnd >= Min(ms[i].view.cwnd, ms[j].cap)
    ensures ms[j].view.state == AfterProbeRtt(ms[j].view.full)
  {
    assert Follows(es[i], ms[i], ms[i+1], mss);
    ProbeRttRemembers(es, ms, mss, i + 1, j - 1);
    assert Follows(es[j-1], ms[j-1], ms[j-1+1], mss);
  }

  ghost predicate NothingForgotten(es: seq<Event>, i: nat, j: nat)
    requires j <= |es|
  {
    forall k :: i <= k < j ==> !es[k].Reset? && !es[k].Persistent?
  }

  lemma {:induction false} SavedGrows(es: seq<Event>, ms: seq<Moment>, mss: nat, i: nat, j: nat)
    requires IsRun(es, ms, mss) && i <= j <= |es| && NothingForgotten(es, i, j)
    ensures ms[j].view.prior >= ms[i].view.prior
    decreases j - i
  {
    if i < j {
      SavedGrows(es, ms, mss, i, j - 1);
      assert Follows(es[j-1], ms[j-1], ms[j-1+1], mss);
    }
  }

  /** Undo: when congestion turns out to have been spurious, the window comes back at least to where it
      was when recovery began, whatever happened in between but a reset or persistent congestion. */
  lemma UndoRestoresWindow(es: seq<Event>, ms: seq<Moment>, mss: nat, i: nat, j: nat)
    requires IsRun(es, ms, mss) && i < j < |es| && NothingForgotten(es, i, j)
    requires Effective(es[i], ms[i]) && es[j].Spurious?
    ensures ms[j+1].view.cwnd >= ms[i].view.cwnd && !ms[j+1].recovering
  {
    assert Follows(es[i], ms[i], ms[i+1], mss);
    SavedGrows(es, ms, mss, i + 1, j);
    assert Follows(es[j], ms[j], ms[j+1], mss);
  }
}
