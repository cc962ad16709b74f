# Verification of the zngtcp2 core

A Dafny 4.11 model of the parts of zngtcp2 (a QUIC library, RFC 9000) whose correctness does not
show from reading one function, with proofs about every input, every run or every reachable
state. `dafny verify dfyconfig.toml` checks all of it.

* **ACK tracker** (`AckRanges.dfy`, `AckTracker.dfy`). The bounded, descending list of packet-number
  ranges is a normal form of a plain set of integers. Adding, forgetting and pruning are stated on
  that set. The ACK frame decodes, by section 19.3.1 of RFC 9000, to the set it was built from. The
  two-pointer walk over an incoming ACK finds what a search entry by entry finds.
* **CUBIC** (`CubeRoot.dfy`, `CubicCurve.dfy`, `Cubic.dfy`). The bit-by-bit cube root is exact. The
  fixed-point curve of section 4.2 of RFC 9438 starts between the reduced window and w_max, and close
  to the former exactly if nothing wraps; it never falls. HyStart++ (section 4.2 of RFC 9406) is stated
  on the round-trip samples, undo (section 4.9 of RFC 9438) on the whole history of congestion events.
* **BBR** (`WindowFilter.dfy`, `Bbr.dfy`, `BbrRun.dfy`). The state machine with its gains, its undo
  state, its saved windows and its windowed maxima. `BbrRun.Run` drives it through any sequence of
  acknowledgement, loss, congestion, spurious, persistent, sent and reset events; the theorems about
  runs are about what it returns. A reset includes the connection's own reset of its statistics.
* **Buffers** (`BufPool.dfy`, `Balloc.dfy`). Reference counts as the number of handles, and a bump
  allocator whose regions never overlap.
* **Text** (`Decimal.dfy`, `UIntText.dfy`, `NormalizePath.dfy`). Decimal writing and parsing with
  units, and the in-place path normaliser as a stack of components.

## How the model is read

Objects that the source updates in place are classes; `Valid()` is what holds in every reachable
state: constructors establish it and every method keeps it. Ghost fields carry history: receive times
(`firstRx`, `lastRx`, `unacked`), the states before the congestion events (`history`), round-trip samples
(`samples`, `lastSamples`), filter samples (`histories`), the window at the entry of ProbeRTT
(`entryCwnd`), overwritten handles (`overwritten`), regions handed out (`regions`). A long source
function is split into methods, each naming in its `modifies` clause the fields it may write; BBR
fields that belong together are one record.

The skip list of ACK ranges is a sequence in its own order, with `LowerBound` as its search; the ring
buffer of sent ACKs is a newest-first sequence of at most 32. The results of `malloc`
and of the random source are parameters or unconstrained values. Times, cube-root
arguments and parsed numbers are 64-bit with their wrap-around written out; windows, rates and packet
numbers are unbounded. Bit operations on powers of two (rounding up to an alignment, testing the low
bits, `x | 1`) are written as arithmetic.

## Findings

* `default_alloc` aligns the start of a buffer, but `ngtcp2_buf_alloc` tests the position after the
  headroom: with the default allocator an aligned allocation succeeds if and only if the headroom is
  a multiple of the alignment (`BufPool.Memory.Alloc`, `BufPool.HeadroomRefused`).
* `parse_duration` rejects a number of seconds that overflows when it has a unit and wraps silently
  when it has none (`UIntText.UnitlessSeconds`, `UIntText.UnitlessWraps`).
* `normalize_path` keeps an empty component after "." or "..", and a later ".." removes that instead
  of the directory before it (`NormalizePath.EmptyAfterDotChangesPlace`). The place is unchanged exactly
  when the names kept do not outnumber the depth reached (`NormalizePath.NormalLeadsToSamePlace`).
* The CUBIC window can fall below two packets while no epoch is open (`Cubic.FloorLostInRun`), exactly
  when the next Reno-friendly estimate exceeds the curve and is below two packets
  (`Cubic.Controller.OnAckRecv`).
* A congestion reset in BBR keeps the floor of four packets only for packets of at most 3680 bytes: the
  initial window it starts from is smaller otherwise (`BbrRun.ResetAndFloor`).
* The bound of the CUBIC curve at the start of an epoch holds even when the cube-root argument wraps
  (`CubicCurve.CurveStart`), but it is tight only without the wrap
  (`CubicCurve.CurveStartTight`, `Cubic.WrapInRun`).
* In BBR, `bbr_save_cwnd` is called after the recovery flag or the ProbeRTT state is set, so outside
  persistent congestion and resets the saved window only grows (`BbrRun.Step`).

## Model

| member | source | states |
|---|---|---|
| AckRanges.LowerBound | lib/ngtcp2_acktr.c:110-111 | The search of the descending list: everything before the result is above the probe, the result is not. |
| AckRanges.GrowDown | lib/ngtcp2_acktr.c:118-121 | Extending an entry downward keeps the list canonical and adds exactly that number. |
| AckRanges.GrowUp | lib/ngtcp2_acktr.c:128-134 | Extending an entry upward keeps the list canonical and adds exactly that number. |
| AckRanges.Fuse | lib/ngtcp2_acktr.c:142-147 | Joining two entries over a one-number gap keeps the list canonical and adds exactly that number. |
| AckRanges.InsertNew | lib/ngtcp2_acktr.c:163-173 | A new entry with a gap on both sides keeps the list canonical and adds exactly that number. |
| AckRanges.Cut | lib/ngtcp2_acktr.c:203-207 | Dropping a tail of the list removes exactly the numbers up to a bound. |
| AckRanges.TrimLast | lib/ngtcp2_acktr.c:267-269 | Shortening the lowest entry removes exactly the numbers up to a bound. |
| AckRanges.CanonicalUnique | lib/ngtcp2_acktr.h:46-60 | Two canonical lists of the same set have the same ranges: the list is a normal form of its set. |
| AckRanges.DecodeAppend | lib/ngtcp2_acktr.c:415-423 | Appending a gap and length to a frame adds exactly the range that section 19.3.1 of RFC 9000 gives it. |
| AckRanges.RangesLieBelow | lib/ngtcp2_acktr.c:300-302 | Every number of the later ranges lies at least two below the range before them. |
| AckTracker.Neighbours | lib/ngtcp2_acktr.c:110-139 | Around an untracked number the source's assertions hold, and its two neighbours are tracked exactly when an adjoining entry ends there. |
| AckTracker.Tracker.constructor | lib/ngtcp2_acktr.c:62-79 | An empty tracker satisfies the invariant of all reachable states. |
| AckTracker.Tracker.Join | lib/ngtcp2_acktr.c:109-161 | A number with a tracked neighbour joins it: exactly one more number, one range fewer if both neighbours are tracked, time stamp of the largest number kept right. |
| AckTracker.Tracker.Insert | lib/ngtcp2_acktr.c:109-173 | Join or a new entry; out of memory, which needs no neighbour to be tracked, changes nothing. |
| AckTracker.Tracker.Evict | lib/ngtcp2_acktr.c:182-188 | Beyond 33 ranges exactly the lowest range goes. |
| AckTracker.Tracker.Track | lib/ngtcp2_acktr.c:102-188 | The set becomes the old set and the number, minus at most its lowest run; every entry's time is the receive time of its largest number. |
| AckTracker.Tracker.Record | lib/ngtcp2_acktr.c:190-193 | The largest number received and the time it was first received. |
| AckTracker.Tracker.Pend | lib/ngtcp2_acktr.c:174-179 | The time kept is the receive time of the first ack-eliciting packet since the last commit. |
| AckTracker.Tracker.Add | lib/ngtcp2_acktr.c:102-196 | The whole of add: set, times, flags, largest number, and the error path; the invariant is kept and no assertion fires. |
| AckTracker.Tracker.Forget | lib/ngtcp2_acktr.c:197-208 | Exactly the numbers up to the entry's largest number go. |
| AckTracker.Tracker.PruneFrom | lib/ngtcp2_acktr.c:203-207 | The removal loop leaves the entries above the bound, in order. |
| AckTracker.Tracker.AddAck | lib/ngtcp2_acktr.c:219-230 | The new ACK is the first of the ring; a full ring drops its oldest element; the ring stays newest first. |
| AckTracker.Tracker.OnAck | lib/ngtcp2_acktr.c:243-274 | Exactly the numbers up to the acknowledged ACK's largest number go, and that ACK with all older ones leaves the ring. |
| AckTracker.NewestAcked | lib/ngtcp2_acktr.c:276-320 | The reference search: the first ring entry whose packet the frame acknowledges, none before it. |
| AckTracker.WalkRing | lib/ngtcp2_acktr.c:276-320 | For every frame and newest-first ring the two-pointer walk ends and finds what the reference search finds. |
| AckTracker.NextRange | lib/ngtcp2_acktr.c:300-318 | One step of the walk: which numbers below the last range the next range decides, and what is left for the rest. |
| AckTracker.Tracker.RecvAck | lib/ngtcp2_acktr.c:276-320 | The newest acknowledged ACK prunes the set and the ring; without one nothing changes. |
| AckTracker.PrunedSet | lib/ngtcp2_acktr.c:254-271 | Removing whole entries and trimming the last one removes exactly the numbers up to the bound. |
| AckTracker.Tracker.CommitAck | lib/ngtcp2_acktr.c:322-328 | All pending-ACK state is cleared, and with it the times of the packets that waited. |
| AckTracker.FirstRange | lib/ngtcp2_acktr.c:374-401 | The first range is the largest number received with the entry at or right below it; the time is that number's receive time. |
| AckTracker.BuildRanges | lib/ngtcp2_acktr.c:413-423 | The gaps and lengths decode to exactly the entries they were built from; no gap underflows. |
| AckTracker.ComposeFrame | lib/ngtcp2_acktr.c:360-423 | The frame decodes to the tracked numbers and the largest number received; only a full list whose top lies more than one below that number loses its lowest range. |
| AckTracker.Tracker.CreateAckFrame | lib/ngtcp2_acktr.c:330-426 | A frame is made if and only if numbers are tracked and the first ack-eliciting packet since the last commit has waited for the ACK delay, or for nothing if the ACK is immediate; what it decodes to, that every number in it was received, and its delay from the receive time of its largest number. |
| AckTracker.ScaledDelay | lib/ngtcp2_acktr.c:403-411 | The encoded delay is the largest whose value in units of 2^exponent microseconds is not above the delay. |
| CubeRoot.CbrtUnique | lib/ngtcp2_cc.c:243-264 | An integer has at most one integer cube root. |
| CubeRoot.Digit | lib/ngtcp2_cc.c:248-255 | One bit of the root turns the remainder at one weight into the remainder at an eighth of it. |
| CubeRoot.UpperDigits | lib/ngtcp2_cc.c:244-255 | The loop leaves the remainder after all digits of the root but the last. |
| CubeRoot.Cbrt | lib/ngtcp2_cc.c:243-264 | The result y has y^3 <= n < (y+1)^3 for every 64-bit n; no step leaves 64 bits. |
| CubicCurve.DeltaFits | lib/ngtcp2_cc.c:290-293 | No product in the scaled cube leaves 64 bits for any payload size up to 65535. |
| CubicCurve.WMono | lib/ngtcp2_cc.c:274-306 | The curve never falls, across its inflection and the 3600 s saturation. |
| CubicCurve.WCubicMono | lib/ngtcp2_cc.c:416-420 | The two evaluations of the acknowledgement handler are ordered, for times that fit. |
| CubicCurve.CurveMirror | lib/ngtcp2_cc.c:295-305 | The curve is w_max at K, and as far below it before K as above it after K, down to zero. |
| CubicCurve.CurveIsCubic | lib/ngtcp2_cc.c:284-305 | At every time the curve is w_max + 0.4 mss (t - K)^3 up to the roundings, with the time difference cut off at an hour. |
| CubicCurve.EpochTimeExact | lib/ngtcp2_cc.c:276-282 | The curve's clock is the time since the epoch in 1024ths of a second, rounded down. |
| CubicCurve.ShiftedCube | lib/ngtcp2_cc.c:292-292 | How much the two shifts take off the cube: nothing added, less than 1024 d + 2^20 lost. |
| CubicCurve.RootBelow | lib/ngtcp2_cc.c:519-522 | The root never overshoots the gap between w_max and the window, even if its argument wraps. |
| CubicCurve.CurveStart | lib/ngtcp2_cc.c:274-306 | At the start of an epoch the curve lies between the reduced window and w_max. |
| CubicCurve.CurveStartTight | lib/ngtcp2_cc.c:274-306 | The curve starts above the reduced window by no more than the roundings if and only if the cube-root argument did not wrap (payload sizes up to 65535 for the wrap); at most an eighth of a packet and three bytes for K up to ten seconds. |
| CubicCurve.RootFits | lib/ngtcp2_cc.c:284-290 | K is always below the saturation of the time difference. |
| CubicCurve.WrapIsFar | lib/ngtcp2_cc.c:519-522 | If the argument wraps, the curve starts further away than any rounding explains. |
| Cubic.FirstLargestSnoc | lib/ngtcp2_cc.c:478-482 | How one more event changes the first largest window of a history. |
| Cubic.MinRttLeast | lib/ngtcp2_cc.c:358-359 | The round's minimum is one of its samples and none is smaller. |
| Cubic.Controller.constructor | lib/ngtcp2_cc.c:225-241 | A new controller satisfies the invariant and has no history. |
| Cubic.Controller.Reset | lib/ngtcp2_cc.c:194-223 | All variables, the undo state and HyStart++ are reset, pacing starts over, and the invariant holds. |
| Cubic.Controller.SetPacingRate | lib/ngtcp2_cc.c:56-74 | The interval is the longest at which 1.25 windows still go out per round trip, and at least 1; the burst is the largest that takes at most a millisecond, within 64 KiB and ten packets. |
| Cubic.Controller.OnAckRecv | lib/ngtcp2_cc.c:308-464 | Which of slow start, application-limited and congestion-avoidance growth applies and by how much; undo is untouched; the floor of two packets is kept in slow start or an open epoch, and lost exactly when the next Reno-friendly estimate exceeds the curve and is below two packets. |
| Cubic.Controller.CountRound | lib/ngtcp2_cc.c:325-330 | A round starts exactly when a packet sent after the last start is acknowledged. |
| Cubic.Controller.Acknowledge | lib/ngtcp2_cc.c:332-464 | Slow start below ssthresh and congestion avoidance from it on, with the whole new state of each. |
| Cubic.Controller.SlowStart | lib/ngtcp2_cc.c:332-399 | Growth by what was delivered, a quarter of it in conservative slow start; HyStart++ and the end of slow start. |
| Cubic.Controller.SlowStartGrowth | lib/ngtcp2_cc.c:334-339 | Exactly the bytes delivered, a quarter of them rounded down in conservative slow start, nothing when the application is the limit. |
| Cubic.Controller.GrowInSlowStart | lib/ngtcp2_cc.c:334-345 | The window grows, and pacing follows it. |
| Cubic.Controller.UpdateHyStart | lib/ngtcp2_cc.c:348-396 | When conservative slow start begins, ends as spurious, or opens an epoch at the current window after five rounds; nothing else changes. |
| Cubic.Controller.SampleRtt | lib/ngtcp2_cc.c:348-360 | The counters describe the samples of the current and the last round. |
| Cubic.Controller.CongestionAvoidance | lib/ngtcp2_cc.c:401-458 | Growth along the curve on a clock that skips application-limited time; the window falls only to the Reno-friendly estimate, which never falls; exactly when it falls below two packets. |
| Cubic.Controller.ClockSkipsIdle | lib/ngtcp2_cc.c:401-416 | When an idle period ends, the curve is evaluated at the epoch time at which the period began. |
| Cubic.Controller.IdleStartsOnce | lib/ngtcp2_cc.c:401-407 | Only the first of several idle acknowledgements starts an idle period. |
| Cubic.Controller.Target | lib/ngtcp2_cc.c:422-428 | The target is what the curve asks for, brought between the window and 1.5 windows; the difference never underflows. |
| Cubic.Controller.StepBelowFloor | lib/ngtcp2_cc.c:438-456 | A step goes below two packets if and only if it follows an estimate below two packets. |
| Cubic.Controller.EstimateExact | lib/ngtcp2_cc.c:430-442 | The estimate after a step, as a function of the state before it. |
| Cubic.Controller.GrowWindow | lib/ngtcp2_cc.c:422-456 | Both fractional growths are accounted for exactly, the rest being less than a window; the larger of estimate and curve decides. |
| Cubic.Controller.Carry | lib/ngtcp2_cc.c:430-436 | Credit spent and credit kept add up to credit earned; the kept part is less than a window. |
| Cubic.Controller.CongestionEvent | lib/ngtcp2_cc.c:466-528 | An effective event joins the history; the reduced window; w_max by fast convergence; K is the exact cube root; the curve starts between the reduced window and w_max, and tightly exactly if nothing wrapped; pacing follows the reduced window; within recovery nothing changes. |
| Cubic.Controller.NewEpoch | lib/ngtcp2_cc.c:515-522 | For any reduced window and w_max: K is the exact cube root, and where the curve then starts. |
| Cubic.Controller.ReducedWindow | lib/ngtcp2_cc.c:501-510 | 70% of the window if at least half of it was delivered in the round trip; otherwise no less than the smaller of that and the larger of what was delivered and in flight, and no more than the latter; two packets in any case. |
| Cubic.Controller.FastConvergence | lib/ngtcp2_cc.c:492-496 | The window itself, or, if the last w_max was not regained, 85% of it, rounded down. |
| Cubic.Controller.OnSpuriousCongestion | lib/ngtcp2_cc.c:530-554 | The window becomes the largest before any event since undo was cleared, or stays; raised, the exact state of the first such event returns. |
| Cubic.Controller.LargestWindow | lib/ngtcp2_cc.c:478-482 | The undo window bounds every window of the history. |
| Cubic.Controller.OnPersistentCongestion | lib/ngtcp2_cc.c:556-568 | A window of two packets, variables and history cleared. |
| Cubic.FloorLostInRun | lib/ngtcp2_cc.c:438-446 | A run through the handlers, a congestion event, persistent congestion and an acknowledgement at 500 ms, that goes from two packets to half a packet. |
| Cubic.WrapInRun | lib/ngtcp2_cc.c:519-522 | A congestion event at a window of six billion bytes, where the argument wraps and the curve starts further away than any rounding explains. |
| WindowFilter.Update | lib/ngtcp2_window_filter.c:45-105 | After any sequence of samples in the order of their times the best estimate is the larger of the new sample and the best estimate still in the window; it is the maximum of all samples from its own on, which lies in the window; while the best is in the window, a smaller sample leaves it as it is, and a lower estimate that equals the one above it is recent. |
| WindowFilter.Admit | lib/ngtcp2_window_filter.c:57-104 | The same for a sample that does not restart the filter. |
| WindowFilter.Restart | lib/ngtcp2_window_filter.c:107-112 | All three estimates are the new sample. |
| WindowFilter.Place | lib/ngtcp2_window_filter.c:57-64 | The new sample replaces the estimates it exceeds; every estimate is still a sample that no later one exceeds. |
| WindowFilter.Promote | lib/ngtcp2_window_filter.c:66-84 | After the best has expired, the estimate that takes its place lies in the window, and it is the largest that does. |
| WindowFilter.Refresh | lib/ngtcp2_window_filter.c:86-104 | Which of the lower estimates are taken anew, and that the best stays. |
| Bbr.InflightAtLossExact | lib/ngtcp2_bbr.c:1047-1071 | The estimate points into the lost packet; if the loss before it was tolerable it is the largest prefix with a loss rate of at most 2%. |
| Bbr.NextInCycle | lib/ngtcp2_bbr.c:781-813 | The cycle is only passed through forward. |
| BbrRun.Run | lib/ngtcp2_bbr.c:1353-1458 | Any sequence of events, with any measurements, is a run: between events the gains are those of the state, Drain and ProbeBW (also as undo state) have a full pipe, draining takes at most three rounds, no divisor is zero, and each event does only what it may. |
| BbrRun.Step | lib/ngtcp2_bbr.c:1353-1435 | The state transitions of each event, what it does to the windows and to recovery, and what it keeps: full pipe, pacing, floor, saved window, window at the entry of ProbeRTT; a reset starts from the initial window. |
| BbrRun.RunSafe | lib/ngtcp2_bbr.c:386-456 | Over any stretch of a run without reset a full pipe stays full, and until then pacing does not slow down. |
| BbrRun.FloorForGood | lib/ngtcp2_bbr.c:1281-1300 | Four packets, once reached, survive everything but a reset, and a reset too for packets of at most 3680 bytes; every acknowledgement that delivers bytes reaches them. |
| BbrRun.ResetAndFloor | lib/ngtcp2_conn.c:6941-6946 | After a reset, which writes the initial window, it holds four packets if and only if packets have at most 3680 bytes. |
| ConnStat.InitialCwndHoldsFour | lib/ngtcp2_cc.c:38-41 | The initial window holds four packets if and only if packets have at most 3680 bytes. |
| ConnStat.InitialCwnd | lib/ngtcp2_cc.c:38-41 | Ten packets up to 1472 bytes, 14720 bytes up to 7360, then two packets. |
| ConnStat.BurstFor | lib/ngtcp2_cc.c:69-73 | The largest burst that takes at most a millisecond of pacing, within its limits. |
| ConnStat.Stat.ResetCongestion | lib/ngtcp2_conn.c:1350-1368 | The connection's own part of a reset: the initial window, no recovery, no round-trip sample, and every other field it writes. |
| BbrRun.NoWayBackToStartup | lib/ngtcp2_bbr.c:997-1022 | After a full pipe Startup is re-entered only by undoing a loss, and left at the next acknowledgement that delivers bytes. |
| BbrRun.ProbeRttRemembers | lib/ngtcp2_bbr.c:1251-1258 | Through any stretch of ProbeRTT, whatever happens in it, the window at entry is remembered and the saved window never falls, nor below it. |
| BbrRun.ProbeRttRoundTrip | lib/ngtcp2_bbr.c:1097-1178 | From before ProbeRTT to after it the window comes back at least to where it was, up to the caps then in force. |
| BbrRun.UndoRestoresWindow | lib/ngtcp2_bbr.c:1360-1392 | When congestion turns out to have been spurious, the window comes back at least to where it was when recovery began, whatever happened in between but a reset or persistent congestion. |
| Bbr.Controller.constructor | lib/ngtcp2_bbr.c:1437-1458 | A new controller is in Startup and satisfies the invariant. |
| Bbr.Controller.Reset | lib/ngtcp2_bbr.c:290-361 | Back to Startup with a pipe that is not full and every other field as it starts; pacing from the initial window; the invariant holds again. |
| Bbr.Controller.InitPacingRate | lib/ngtcp2_bbr.c:425-433 | The interval is the longest at which 2.77 initial windows still go out per round trip, and at least 1. |
| Bbr.Controller.EnterStartup | lib/ngtcp2_bbr.c:458-464 | The gains of the state. |
| Bbr.Controller.EnterDrain | lib/ngtcp2_bbr.c:681-688 | The gains of the state, and the round in which draining starts. |
| Bbr.Controller.EnterProbeRtt | lib/ngtcp2_bbr.c:1119-1125 | The gains of the state. |
| Bbr.Controller.StartProbeBwDown | lib/ngtcp2_bbr.c:701-722 | The gains of the state, cleared signals, and a wait between two and three seconds. |
| Bbr.Controller.StartProbeBwCruise | lib/ngtcp2_bbr.c:724-731 | The gains of the state. |
| Bbr.Controller.StartProbeBwRefill | lib/ngtcp2_bbr.c:733-748 | The gains of the state, and no short-term bounds. |
| Bbr.Controller.StartProbeBwUp | lib/ngtcp2_bbr.c:750-765 | The gains of the state, a new full-pipe estimate, a slope of at least one. |
| Bbr.Controller.RaiseInflightLongtermSlope | lib/ngtcp2_bbr.c:862-869 | At most 30 rounds, a count of at least one, and no more per round than the window allows. |
| Bbr.Controller.QuantizedMeaning | lib/ngtcp2_bbr.c:1211-1225 | The least volume that covers what was asked for, three bursts and four packets, with two packets to spare in ProbeBW_UP. |
| Bbr.Controller.VolumeMeaning | lib/ngtcp2_bbr.c:1197-1209 | The volume is the gain times the product of bandwidth and shortest round trip, rounded down at the product, which is at least one byte, and at the gain; the initial window before any sample. |
| Bbr.Controller.HeadroomMeaning | lib/ngtcp2_bbr.c:842-860 | Exactly the long-term bound less 15% or a packet, whichever is more, unless that is below four packets. |
| Bbr.Controller.SaveCwnd | lib/ngtcp2_bbr.c:1251-1258 | In recovery or ProbeRTT the saved window only grows. |
| Bbr.Controller.RestoreCwnd | lib/ngtcp2_bbr.c:1260-1263 | The window is raised to the saved one, never lowered. |
| Bbr.Controller.OnPktLost | lib/ngtcp2_bbr.c:1024-1045 | The invariant and the step property; when probing stops, what the long-term bound becomes, and which state and bounds an undo returns to. |
| Bbr.Controller.HandleLostPacket | lib/ngtcp2_bbr.c:1024-1045 | Exactly when a loss is too high, and what it then leaves. |
| Bbr.Controller.NoteLoss | lib/ngtcp2_bbr.c:981-995 | The first loss of a round saves the state and the bounds. |
| Bbr.Controller.HandleInflightTooHigh | lib/ngtcp2_bbr.c:964-979 | The new long-term bound, and the end of ProbeBW_UP. |
| Bbr.Controller.CongestionEvent | lib/ngtcp2_bbr.c:1360-1377 | Recovery starts once, with the window saved as a running maximum. |
| Bbr.Controller.OnSpuriousCongestion | lib/ngtcp2_bbr.c:1379-1392 | Window and bounds return to at least what they were, and only Startup and ProbeBW_UP are re-entered. |
| Bbr.Controller.HandleSpuriousLossDetection | lib/ngtcp2_bbr.c:997-1022 | The bounds of the undo state, and the state transition. |
| Bbr.Controller.OnPersistentCongestion | lib/ngtcp2_bbr.c:1394-1408 | The window after it, what is saved, and the floor. |
| Bbr.Controller.OnPktSent | lib/ngtcp2_bbr.c:1180-1195 | Leaving ProbeRTT here gives back at least the window at entry; otherwise only pacing can change. |
| Bbr.Controller.HandleRestartFromIdle | lib/ngtcp2_bbr.c:1180-1195 | What a restart from idle does in ProbeBW, in ProbeRTT and elsewhere. |
| Bbr.Controller.PacingIntervalLongest | lib/ngtcp2_bbr.c:435-451 | The interval of the triple division is the longest at which 99% of the scaled bandwidth is still sent, and at least 1. |
| Bbr.Controller.SetPacingRateWithGain | lib/ngtcp2_bbr.c:435-451 | Until the pipe is full the interval only shrinks; it is never zero. |
| Bbr.Controller.CheckProbeRttDone | lib/ngtcp2_bbr.c:1152-1178 | Leaving ProbeRTT restores at least the window at entry and goes to the state the full-pipe flag demands. |
| Bbr.Controller.HandleProbeRtt | lib/ngtcp2_bbr.c:1127-1150 | ProbeRTT ends exactly when 200 ms and a round have passed since the pipe was drained to half its volume, with at least the window at entry; until then the window stays. |
| Bbr.Controller.CheckProbeRtt | lib/ngtcp2_bbr.c:1097-1117 | When ProbeRTT is entered and left; entering saves the window, leaving gives back at least the window at entry. |
| Bbr.Controller.BeginProbeRtt | lib/ngtcp2_bbr.c:1101-1106 | Entering ProbeRTT saves the window and starts its clock over. |
| Bbr.Controller.ProbeRttWindowMeaning | lib/ngtcp2_bbr.c:1265-1272 | Half the bandwidth-delay product rounded down, but at least four packets. |
| Bbr.Controller.HandleRecovery | lib/ngtcp2_bbr.c:1339-1351 | When recovery ends, and that the window is then restored. |
| Bbr.Controller.OnAckRecv | lib/ngtcp2_bbr.c:1410-1421 | The invariant, the transitions and exactly when ProbeRTT is entered and left; leaving it gives back the window up to the caps. Without bytes delivered only recovery can end. With them the window outside ProbeRTT is exactly what growth by the delivered bytes gives, cut to the model's cap; the bandwidth is bounded by the measured one, which does not fall while its estimate is in the window, and the round trip by the last one; the short-term bounds are cut exactly in a lossy round; pacing is at the state's gain in bursts of a millisecond. |
| Bbr.Controller.UpdateOnAck | lib/ngtcp2_bbr.c:479-483 | The same for an acknowledgement that delivers bytes, once recovery is dealt with. |
| Bbr.Controller.UpdateModelAndState | lib/ngtcp2_bbr.c:485-500 | Model and state together: the transitions, the window on leaving ProbeRTT, the bandwidth, the round trip, the round and its losses, and the short-term bounds. |
| Bbr.Controller.UpdateMachine | lib/ngtcp2_bbr.c:489-495 | Draining takes at most three rounds between events, and Startup does not outlive a full pipe; exactly when the pipe becomes full; the measured bandwidth and the short-term bounds. |
| Bbr.Controller.UpdateRtt | lib/ngtcp2_bbr.c:496-499 | The transitions of ProbeRTT with their exact conditions and windows, and the round trip of the model. |
| Bbr.Controller.UpdateState | lib/ngtcp2_bbr.c:492-495 | The transitions outside ProbeRTT go forward and keep the invariant; exactly when the pipe becomes full. |
| Bbr.Controller.LeaveStartup | lib/ngtcp2_bbr.c:492-494 | The exact state after the tests for a full pipe, the end of Startup and the end of Drain. |
| Bbr.Controller.UpdateSignals | lib/ngtcp2_bbr.c:489-491 | Filters, rounds, and the short-term bounds: cut in a loss round with losses, to 70% but not below what was delivered, and never while probing. |
| Bbr.Controller.UpdateRound | lib/ngtcp2_bbr.c:600-621 | A round starts exactly when a packet sent after the last start is acknowledged; the round's counters start over. |
| Bbr.Controller.UpdateMaxBw | lib/ngtcp2_bbr.c:587-598 | The maximum is the best estimate over two cycles: it covers every sample not limited by the application, rises to no more than the sample, and does not fall while its estimate is in the window; limited samples below it are ignored. |
| Bbr.Controller.UpdateLossSignals | lib/ngtcp2_bbr.c:531-561 | The losses of the round are counted; the bounds are kept, or cut to 70% of themselves or of what they start from, and not below what was delivered. |
| Bbr.Controller.LowerBounds | lib/ngtcp2_bbr.c:563-581 | A cut leaves 70% of the bound, or of the measured bandwidth and the window if there was none, but at least the latest delivery. |
| Bbr.Controller.UpdateAckAggregation | lib/ngtcp2_bbr.c:646-679 | The excess over the expected deliveries is a sample of the filter over one round, or ten once the pipe is full; its best is the aggregation. |
| Bbr.Controller.ExpectedMeaning | lib/ngtcp2_bbr.c:650-652 | The expected deliveries are the bandwidth over the time since the epoch, rounded down. |
| Bbr.Controller.Excess | lib/ngtcp2_bbr.c:653-667 | By how much deliveries run ahead of the bandwidth, at most a window, and exactly when the epoch starts over. |
| Bbr.Controller.CheckFullBwReached | lib/ngtcp2_bbr.c:386-410 | The pipe counts as full exactly in the third round in a row without 25% growth; growth starts the count over. |
| Bbr.Controller.CheckStartupDone | lib/ngtcp2_bbr.c:412-423 | Exactly when high loss also fills the pipe, and the bound it leaves; a full pipe leaves Startup for Drain. |
| Bbr.Controller.CheckDrainDone | lib/ngtcp2_bbr.c:690-699 | Drain ends exactly when no more than the model's volume is in flight or after three rounds. |
| Bbr.Controller.UpdateProbeBwCyclePhase | lib/ngtcp2_bbr.c:767-779 | Only the transitions of the ProbeBW cycle happen, each exactly under its condition. |
| Bbr.Controller.NextPhase | lib/ngtcp2_bbr.c:781-813 | The next state of the cycle, with the exact condition of each transition. |
| Bbr.Controller.AdaptLongtermModel | lib/ngtcp2_bbr.c:895-923 | The long-term bound does not change while loss is too high; otherwise it covers what was in flight and grows further only by the bytes acknowledged in ProbeBW_UP; when a cycle is counted. |
| Bbr.Controller.ProbeInflightLongtermUpward | lib/ngtcp2_bbr.c:871-893 | Acknowledged bytes are turned into growth exactly, the rest being carried over; when the slope rises; no division by zero. |
| Bbr.Controller.UpdateMinRtt | lib/ngtcp2_bbr.c:1073-1095 | The round trip and the delay that ProbeRTT looks at, each with its time: at most this sample, one that was measured, and taken anew only when ten or five seconds old. |
| Bbr.Controller.UpdateControlParameters | lib/ngtcp2_bbr.c:502-508 | Window, volume and pacing follow from the model: outside ProbeRTT the window is exactly the grown one cut to the cap. |
| Bbr.Controller.SetSendQuantum | lib/ngtcp2_bbr.c:1321-1331 | The largest burst that takes at most a millisecond of pacing, within 64 KiB and two packets; no division by zero. |
| Bbr.Controller.ModelCapMeaning | lib/ngtcp2_bbr.c:1302-1319 | At least four packets, and at most the short-term and, in ProbeBW, the long-term bound; and not below those bounds: all of them in Startup and Drain and while probing, less the headroom in Cruise and ProbeRTT. |
| Bbr.Controller.SetCwnd | lib/ngtcp2_bbr.c:1281-1300 | The window is exactly the grown one, cut to half the volume in ProbeRTT and to the model's cap, hence between four packets and the caps. |
| Bbr.Controller.GrowCwnd | lib/ngtcp2_bbr.c:1281-1296 | Growth by the bytes delivered, up to the volume of the model once the pipe is full. |
| Bbr.Controller.GrownCwndMeaning | lib/ngtcp2_bbr.c:1286-1296 | The window grows by all bytes delivered unless the volume stops it: at the volume once the pipe is full, and at a window that has reached it before. |
| BufPool.AlignUp | lib/ngtcp2_buf_alloc.c:72-76 | The lowest multiple of the alignment that is not below the address. |
| BufPool.InfoOkMeaning | lib/ngtcp2_buf_alloc.c:40-70 | Accepted are exactly the known roles with a power of two as alignment and sizes whose sum fits 64 bits. |
| BufPool.AllocLenFits | lib/ngtcp2_buf_alloc.c:106-121 | The block is large enough wherever malloc places it, and for some place nothing is wasted. |
| BufPool.TotalStore | lib/ngtcp2_buf.c:121-121 | Overwriting a handle adds one to the new owner's total and changes no other. |
| BufPool.TotalDrop | lib/ngtcp2_buf.c:87-97 | Giving a handle up takes one off its owner's total and changes no other. |
| BufPool.RetainKeeps | lib/ngtcp2_buf.c:114-121 | A retained copy keeps every count equal to its total. |
| BufPool.ReleaseKeeps | lib/ngtcp2_buf_alloc.c:84-96 | A release keeps counts, placement and disjointness; a freed block is named by no handle. |
| BufPool.MoveKeeps | lib/ngtcp2_buf.c:126-129 | A move keeps counts and placement, also onto itself. |
| BufPool.AllocKeeps | lib/ngtcp2_buf_alloc.c:124-135 | A new block keeps counts, placement and disjointness. |
| BufPool.Memory.constructor | lib/ngtcp2_buf.c:96-96 | Zeroed handles satisfy the invariant. |
| BufPool.Memory.Alloc | lib/ngtcp2_buf_alloc.c:162-192 | Exactly when it succeeds; then an aligned position with the full room inside a new block with one reference; a block allocated in vain is freed. |
| BufPool.HeadroomRefused | lib/ngtcp2_buf_alloc.c:186-189 | A request with one byte of headroom and alignment 8 that is refused, and one with eight that is granted. |
| BufPool.Memory.DefaultAlloc | lib/ngtcp2_buf_alloc.c:98-138 | The handle's range inside the block, headroom and room as asked. |
| BufPool.Memory.Release | lib/ngtcp2_buf.c:87-97 | The block is freed exactly when this was its last handle and none was overwritten; a released handle releases nothing. |
| BufPool.Memory.LastHandle | lib/ngtcp2_buf_alloc.c:88-92 | A total of one means this handle alone. |
| BufPool.Memory.Slice | lib/ngtcp2_buf.c:99-124 | Exactly when it fails; else the sub-range, one more reference, and what was overwritten. |
| BufPool.Memory.Move | lib/ngtcp2_buf.c:126-129 | The destination names what the source named, the source nothing; no count changes. |
| Balloc.Allocator.constructor | lib/ngtcp2_balloc.c:31-39 | No block and no region. |
| Balloc.Allocator.Get | lib/ngtcp2_balloc.c:61-90 | A new aligned region of the full length in the current block, disjoint from all others since the last clear; when a block is allocated; the space used up is less than 16 bytes more than the length; out of memory changes nothing. |
| Balloc.Allocator.NewBlock | lib/ngtcp2_balloc.c:68-81 | The aligned data area fits in the block, given 8-byte aligned blocks. |
| Balloc.Allocator.Bump | lib/ngtcp2_balloc.c:84-89 | The bump pointer stays aligned and inside the block and moves by less than the length and 16. |
| Balloc.Allocator.Fresh | lib/ngtcp2_balloc.c:86-87 | The next region is disjoint from every earlier one. |
| Balloc.Allocator.RoomFor | lib/ngtcp2_balloc.c:87-87 | The rounded length still fits whenever the length does. |
| Balloc.Allocator.Clear | lib/ngtcp2_balloc.c:49-59 | Every block is freed, each once. |
| Decimal.TextDenotes | examples/util.h:383-400 | The decimal text of a number consists of digits and denotes it. |
| Decimal.TextLength | examples/util.h:315-316 | The text is the shortest one. |
| Decimal.LowerEstimate | examples/util.h:321-323 | 19/64 of the bit position never overestimates the digits. |
| Decimal.UpperEstimate | examples/util.h:321-325 | It underestimates them by at most one for 64-bit numbers. |
| Decimal.CountDigitExact | examples/util.h:320-328 | The digit count is the length of the text, and the table is never indexed out of range. |
| UIntText.Utos | examples/util.h:341-375 | The writer fills exactly the text's place in the buffer and nothing else. |
| UIntText.WriteBackward | examples/util.h:356-373 | The backward loop over pairs of digits writes the text. |
| UIntText.FormatUint | examples/util.h:384-400 | The result is the text, in a buffer of exactly the counted size. |
| UIntText.DigitPrefix | examples/util.cc:456-464 | The longest prefix of digits. |
| UIntText.ParseUintInternal | examples/util.cc:449-476 | The loop returns the value and length of the digit prefix, or overflow exactly when that value exceeds 64 bits. |
| UIntText.ParseUintAccepts | examples/util.cc:479-489 | Accepted are exactly the non-empty digit strings whose value fits 64 bits, at that value. |
| UIntText.ParseFormatUint | examples/util.cc:479-489 | Parsing undoes formatting for every 64-bit number. |
| UIntText.IecUnit | examples/util.h:402-416 | The largest unit that drops no precision. |
| UIntText.Scale | examples/util.cc:522-526 | The division test rejects exactly the products that overflow. |
| UIntText.IecUnitNames | examples/util.cc:504-520 | Exactly K, M and G are units, in either case, at 2^10, 2^20 and 2^30; every other suffix is rejected. |
| UIntText.ParseFormatIec | examples/util.cc:491-527 | Parsing undoes formatting with IEC units for every 64-bit number. |
| UIntText.DurationUnit | examples/util.cc:428-445 | The largest unit that drops no precision. |
| UIntText.DurationUnitNames | examples/util.cc:539-572 | Exactly h, m, s, ms, us and ns are units, in either case, each at its length; every other suffix is rejected. |
| UIntText.ParseFormatDuration | examples/util.cc:529-582 | Parsing undoes formatting of durations for every 64-bit number. |
| UIntText.ParseWithUnit | examples/util.cc:491-582 | Digits followed by a unit are worth their number of units, or overflow exactly when that exceeds 64 bits. |
| UIntText.ParseNeedsDigits | examples/util.cc:449-476 | A text that does not start with a digit is rejected. |
| UIntText.UnitlessSeconds | examples/util.cc:535-537 | Without a unit the value is right if and only if it is at most 18446744073; with the unit the others are rejected. |
| UIntText.UnitlessWraps | examples/util.cc:535-537 | 18446744074 without a unit becomes 290448384 ns, and is rejected with the unit. |
| NormalizePath.ReducePlain | examples/util.cc:642-675 | The reference leaves no "." and no ".." on its stack. |
| NormalizePath.ReduceShortens | examples/util.cc:642-675 | The reference never makes a path longer. |
| NormalizePath.ComponentsOfRender | examples/util.cc:676-676 | A rendered path splits back into its components. |
| NormalizePath.NormalIsClean | examples/util.cc:621-677 | The result starts with a slash, has no "." or ".." component and is no longer than the path. |
| NormalizePath.ReduceWalks | examples/util.cc:642-675 | The place a path leads to is never deeper than the names the result keeps, equal to them if as deep, and behind by the lag. |
| NormalizePath.NormalLeadsToSamePlace | examples/util.cc:621-677 | The result leads where the path leads if and only if a scan of the components, counting kept names and real depth, ends without a lag. |
| NormalizePath.NoEmptyNoLag | examples/util.cc:647-660 | In particular it leads to the same place if no dot component is followed by an empty one. |
| NormalizePath.EmptyAfterDotChangesPlace | examples/util.cc:647-660 | For any two names a path with such a component that leads elsewhere. |
| NormalizePath.EatFile | examples/util.cc:585-606 | Back to just after the last slash, or to a fresh root if there is none. |
| NormalizePath.EatDir | examples/util.cc:610-618 | The last component goes; the assertion holds. |
| NormalizePath.PopDir | examples/util.cc:610-618 | On a rendered stack this is a pop. |
| NormalizePath.TakeDots | examples/util.cc:643-662 | One dot component in the buffer is one step of the reference. |
| NormalizePath.TakeName | examples/util.cc:663-674 | One ordinary component in the buffer is one step of the reference, inside the buffer. |
| NormalizePath.Normalize | examples/util.cc:621-677 | The in-place loop ends with the reference's result for every path up to 1024 bytes and rejects longer ones. |

## Left out

- Reno, the ECN counters and `ngtcp2_acktr_immediate_ack`: they would only add easy members.
- The skip list, the ring buffer, the object allocators, the random source and the delivery-rate sampler: replaced by their results.
- `ngtcp2_tx_pkt_alloc`, `ngtcp2_tx_pkt_release`, `ngtcp2_buf_grow`, buffers with foreign owners and custom allocators: only the default allocator's owners are counted.
- Connection, packet and crypto code, logging, sockets and the example programs: not modelled.
- 64-bit overflow of windows, rates, round counts and packet numbers; timestamps near the end of the 64-bit range in CUBIC and BBR.
- The packet size changing during a run.
- CubicCurve.WCubicMono: for times whose shifted difference fits 64 bits; beyond that the source's own time wraps.
- WindowFilter.Update: the best is the maximum of the samples in the window that the three estimates still hold; other samples of the window are forgotten by design.
- BufPool.AlignUp: written with division; the source's bit mask is the same for powers of two.
- `format_uint` and `count_digit` for types narrower than 64 bits.
