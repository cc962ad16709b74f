/** The windowed maximum filter of the BBR bandwidth and aggregation estimates. */
module WindowFilter {
  import opened Arith

  datatype Estimate = Estimate(sample: nat, time: nat)

  /** What the estimates are set to before the first sample. */
  const NONE: Estimate := Estimate(UINT64_MAX, UINT64_MAX)

  /** The filter, which is a part of the controller: the three best estimates of the window. */
  datatype Filter = Filter(windowLength: nat, e0: Estimate, e1: Estimate, e2: Estimate)

  /** ngtcp2_window_filter_init. */
  function Init(windowLength: nat): Filter { Filter(windowLength, NONE, NONE, NONE) }

  /** All samples since the start, and which of them the estimates are. */
  datatype History = History(log: seq<Estimate>, at0: nat, at1: nat, at2: nat)

  const EMPTY: History := History([], 0, 0, 0)

  /** The estimate is the sample with number `at`, and no later sample is larger. */
  ghost predicate Dominates(log: seq<Estimate>, at: nat, e: Estimate) {
    at < |log| && log[at] == e && forall j :: at < j < |log| ==> log[j].sample <= e.sample
  }

  ghost predicate Before(log: seq<Estimate>, time: nat) {
    forall i :: 0 <= i < |log| ==> log[i].time <= time
  }

  /** Every estimate is a sample that no later sample exceeds; later estimates are no larger. */
  ghost predicate Tracks(f: Filter, h: History) {
    if h.log == [] then f.e0 == NONE
    else
      && Dominates(h.log, h.at0, f.e0) && Dominates(h.log, h.at1, f.e1) && Dominates(h.log, h.at2, f.e2)
      && Ordered(f.e0, f.e1) && Ordered(f.e1, f.e2)
  }

  predicate Ordered(a: Estimate, b: Estimate) { a.time <= b.time && a.sample >= b.sample }

  predicate InWindow(f: Filter, e: Estimate, now: nat) { now <= e.time + f.windowLength }

  /** The best of the estimates that are still in the window. */
  function Surviving(f: Filter, now: nat): nat {
    if InWindow(f, f.e0, now) then f.e0.sample
    else if InWindow(f, f.e1, now) then f.e1.sample
    else if InWindow(f, f.e2, now) then f.e2.sample
    else 0
  }

  /** A lower estimate that equals the one above it is recent: it is there to take its place. */
  predicate Spread(f: Filter, now: nat) {
    && (f.e1.sample == f.e0.sample ==> now <= f.e1.time + f.windowLength / 4)
    && (f.e2.sample == f.e1.sample ==> now <= f.e2.time + f.windowLength / 2)
  }

  /** What the filter returns, or zero before the first sample. */
  ghost function Best(f: Filter, h: History): nat { if h.log == [] then 0 else f.e0.sample }

  /** The best estimate is the maximum of all samples from its own on, and that one lies in the
      window that ends at `now`: it is a maximum over a part of the window. */
  ghost predicate BestInWindow(f: Filter, h: History, now: nat) {
    Dominates(h.log, h.at0, f.e0) && InWindow(f, f.e0, now)
  }

  /** What an update with a sample means. */
  ghost predicate Updated(f: Filter, h: History, f': Filter, h': History, next: Estimate) {
    && Tracks(f', h') && h'.log == h.log + [next] && f'.windowLength == f.windowLength
    && BestInWindow(f', h', next.time)
    && f'.e0.sample == BestAfter(f, h, next)
    && (h.log == [] || InWindow(f, f.e0, next.time) ==> Spread(f', next.time))
    && (h.log != [] && InWindow(f, f.e0, next.time) && next.sample <= f.e0.sample < UINT64_MAX ==> f'.e0 == f.e0)
  }

  /** The new sample or the best estimate still in the window, whichever is larger. */
  ghost function BestAfter(f: Filter, h: History, next: Estimate): nat {
    if h.log == [] || f.e0.sample == UINT64_MAX then next.sample else Max(Surviving(f, next.time), next.sample)
  }

  /** ngtcp2_window_filter_update.  Samples come in the order of their times. */
  method Update(f: Filter, ghost h: History, sample: nat, time: nat) returns (f': Filter, ghost h': History)
    requires Tracks(f, h) && Before(h.log, time)
    ensures Updated(f, h, f', h', Estimate(sample, time)) && Before(h'.log, time)
    ensures f'.e0.sample >= sample && InWindow(f', f'.e0, time) && f'.windowLength == f.windowLength
  {
    if f.e0.sample == UINT64_MAX || sample > f.e0.sample || time - f.e2.time > f.windowLength {
      f', h' := Restart(f, h, sample, time);
      return;
    }
    f', h' := Admit(f, h, sample, time);
  }

  /** The rest of ngtcp2_window_filter_update, for a sample that does not restart the filter. */
  method Admit(f: Filter, ghost h: History, sample: nat, time: nat) returns (f': Filter, ghost h': History)
    requires Tracks(f, h) && Before(h.log, time) && h.log != []
    requires f.e0.sample != UINT64_MAX && sample <= f.e0.sample && InWindow(f, f.e2, time)
    ensures Updated(f, h, f', h', Estimate(sample, time))
  {
    f', h' := Place(f, h, sample, time);
    if time - f'.e0.time > f'.windowLength {
      f', h' := Promote(f', h', sample, time);
    } else {
      f', h' := Refresh(f', h', sample, time);
    }
  }

  /** ngtcp2_window_filter_reset. */
  method Restart(f: Filter, ghost h: History, sample: nat, time: nat) returns (f': Filter, ghost h': History)
    ensures Tracks(f', h') && h'.log == h.log + [Estimate(sample, time)] && h'.at0 == |h.log|
    ensures f' == Filter(f.windowLength, Estimate(sample, time), Estimate(sample, time), Estimate(sample, time))
  {
    var e := Estimate(sample, time);
    f' := Filter(f.windowLength, e, e, e);
    h' := History(h.log + [e], |h.log|, |h.log|, |h.log|);
  }

  /** A sample not above the best takes the place of the estimates it exceeds. */
  method Place(f: Filter, ghost h: History, sample: nat, time: nat) returns (f': Filter, ghost h': History)
    requires Tracks(f, h) && Before(h.log, time) && h.log != [] && sample <= f.e0.sample
    ensures Tracks(f', h') && h'.log == h.log + [Estimate(sample, time)]
    ensures f'.windowLength == f.windowLength && f'.e0 == f.e0 && h'.at0 == h.at0
    ensures f'.e1 == (if sample > f.e1.sample then Estimate(sample, time) else f.e1)
    ensures f'.e2 == (if sample > f.e2.sample then Estimate(sample, time) else f.e2)
  {
    var e := Estimate(sample, time);
    if sample > f.e1.sample {
      f', h' := f.(e1 := e, e2 := e), History(h.log + [e], h.at0, |h.log|, |h.log|);
    } else if sample > f.e2.sample {
      f', h' := f.(e2 := e), History(h.log + [e], h.at0, h.at1, |h.log|);
    } else {
      f', h' := f, h.(log := h.log + [e]);
    }
  }

  /** The best estimate has expired: the others move up, twice if need be, and the sample becomes
      the third. */
  method Promote(f: Filter, ghost h: History, sample: nat, time: nat) returns (f': Filter, ghost h': History)
    requires Tracks(f, h) && h.log != [] && h.log[|h.log|-1] == Estimate(sample, time)
    requires Before(h.log, time) && InWindow(f, f.e2, time) && sample <= f.e1.sample && sample <= f.e2.sample
    ensures Tracks(f', h') && h'.log == h.log && f'.windowLength == f.windowLength
    ensures BestInWindow(f', h', time) && f'.e0 == if InWindow(f, f.e1, time) then f.e1 else f.e2
  {
    f' := Filter(f.windowLength, f.e1, f.e2, Estimate(sample, time));
    h' := History(h.log, h.at1, h.at2, |h.log| - 1);
    if time - f'.e0.time > f'.windowLength {
      f' := f'.(e0 := f'.e1, e1 := f'.e2);
      h' := h'.(at0 := h'.at1, at1 := h'.at2);
    }
  }

  /** After a quarter of the window without a better sample the second estimate is taken anew,
      after half of it the third. */
  method Refresh(f: Filter, ghost h: History, sample: nat, time: nat) returns (f': Filter, ghost h': History)
    requires Tracks(f, h) && Before(h.log, time) && h.log != [] && h.log[|h.log|-1] == Estimate(sample, time)
    requires sample <= f.e1.sample && sample <= f.e2.sample
    ensures Tracks(f', h') && h'.log == h.log && f'.windowLength == f.windowLength
    ensures f'.e0 == f.e0 && h'.at0 == h.at0 && Spread(f', time)
    // nothing is taken anew without need
    ensures f'.e1 == f.e1 || (f.e1.sample == f.e0.sample && time > f.e1.time + f.windowLength / 4)
    ensures f'.e2 == f.e2 || f'.e1 != f.e1 || (f.e2.sample == f.e1.sample && time > f.e2.time + f.windowLength / 2)
  {
    var e := Estimate(sample, time);
    f', h' := f, h;
    if f.e1.sample == f.e0.sample && time - f.e1.time > f.windowLength / 4 {
      f', h' := f.(e1 := e, e2 := e), h.(at1 := |h.log| - 1, at2 := |h.log| - 1);
      return;
    }
    if f.e2.sample == f.e1.sample && time - f.e2.time > f.windowLength / 2 {
      f', h' := f.(e2 := e), h.(at2 := |h.log| - 1);
    }
  }
}
