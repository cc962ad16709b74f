/** The tracker of received packets that must be acknowledged.

    The skip list of entries is the sequence `ents`, kept in its own (descending) order; the
    ring buffer of outgoing ACKs is `acks`, newest first.  The flag word is three booleans.
    Two ghost maps record when each number was first and last received.  */
module AckTracker {
  import opened AckRanges
  import opened Arith
  import opened Common

  const MAX_ACK_RANGES: nat := 32
  const MAX_ENT: nat := MAX_ACK_RANGES + 1
  const RING_SIZE: nat := 32

  /** An outgoing ACK frame: the packet that carried it, and its largest acknowledged number. */
  datatype SentAck = SentAck(largestAck: int, pktNum: int)

  /** The entry time stamps are the last receive times of the entries' largest numbers. */
  ghost predicate Stamped(es: seq<Entry>, rx: map<int, uint64>) {
    forall i :: 0 <= i < |es| ==> es[i].pktNum in rx && es[i].tstamp == rx[es[i].pktNum]
  }

  ghost predicate Received(s: iset<int>, rx: map<int, uint64>) {
    forall x :: x in s ==> x in rx
  }

  /** A canonical list of received numbers, with the receive times of its largest numbers. */
  ghost predicate Known(es: seq<Entry>, rx: map<int, uint64>) {
    Canonical(es) && Stamped(es, rx) && Received(Covered(es), rx)
  }

  ghost predicate NewestFirst(acks: seq<SentAck>) {
    forall i, j :: 0 <= i < j < |acks| ==> acks[j].pktNum < acks[i].pktNum
  }

  /** The number of maximal runs once x, so far untracked, is added. */
  function RangesAfter(es: seq<Entry>, x: int): int {
    |es| + 1 - (if Tracked(es, x - 1) then 1 else 0) - (if Tracked(es, x + 1) then 1 else 0)
  }

  /** es stands for s without the lowest maximal run of s. */
  ghost predicate AllButLowestRun(es: seq<Entry>, s: iset<int>) {
    exists e: Entry :: Canonical(es + [e]) && Covered(es + [e]) == s
  }

  /** The new list stands for the old numbers and x, except that beyond MAX_ENT runs the
      lowest run is given up. */
  ghost predicate AddedTo(es: seq<Entry>, es': seq<Entry>, x: int) {
    var s := Covered(es) + iset{x};
    if RangesAfter(es, x) <= MAX_ENT then Covered(es') == s
    else |es'| == MAX_ENT && AllButLowestRun(es', s)
  }

  /** es' is es with x added: one more number, received at ts. */
  ghost predicate Grown(es: seq<Entry>, es': seq<Entry>, x: int, ts: uint64, rx: map<int, uint64>) {
    && Canonical(es') && Covered(es') == Covered(es) + iset{x}
    && |es'| == RangesAfter(es, x)
    && Stamped(es', rx[x := ts])
  }

  /** The index of the newest ring entry that the frame acknowledges, or |acks|. */
  ghost function NewestAcked(acks: seq<SentAck>, fr: AckFrame): (j: nat)
    ensures j <= |acks|
    ensures j < |acks| ==> acks[j].pktNum in Decode(fr)
    ensures forall k :: 0 <= k < j ==> acks[k].pktNum !in Decode(fr)
  {
    if acks == [] || acks[0].pktNum in Decode(fr) then 0
    else 1 + NewestAcked(acks[1..], fr)
  }

  /** Where an untracked number falls between the entries. */
  lemma Neighbours(es: seq<Entry>, x: int)
    requires Canonical(es) && !Tracked(es, x)
    ensures var i := LowerBound(es, x);
            && (i < |es| ==> es[i].pktNum < x)
            && (i > 0 ==> x < Low(es[i-1]))
            && (Tracked(es, x - 1) <==> i < |es| && es[i].pktNum + 1 == x)
            && (Tracked(es, x + 1) <==> i > 0 && Low(es[i-1]) == x + 1)
  {
    var i := LowerBound(es, x);
    forall k | 0 <= k < |es| ensures !Holds(es[k], x) { }
    forall k | 0 <= k < |es| && k != i && k != i - 1
      ensures !Holds(es[k], x - 1) && !Holds(es[k], x + 1)
    {
      if k < i { assert Apart(es[k], es[i-1]); } else { assert Apart(es[i], es[k]); }
    }
    if i < |es| && es[i].pktNum + 1 == x { assert Holds(es[i], x - 1); }
    if i > 0 && Low(es[i-1]) == x + 1 { assert Holds(es[i-1], x + 1); }
  }

  class Tracker {
    var ents: seq<Entry>
    var acks: seq<SentAck>
    var firstUnackedTs: uint64
    var rxNpkt: nat
    var maxPktNum: int
    var maxPktTs: uint64
    var ect0: nat
    var ect1: nat
    var ce: nat
    var activeAck: bool
    var immediateAck: bool
    var cancelTimer: bool
    ghost var firstRx: map<int, uint64>
    ghost var lastRx: map<int, uint64>
    /** The receive times of the ack-eliciting packets since the last commit. */
    ghost var unacked: seq<uint64>

    /** Holds in every reachable state: it is established by the constructor and kept by every
        method. */
    ghost predicate Valid()
      reads this
    {
      && Known(ents, lastRx) && |ents| <= MAX_ENT
      && NewestFirst(acks) && |acks| <= RING_SIZE
      && History() && firstUnackedTs == FirstTime(unacked)
    }

    /** The first valid time, UINT64_MAX if there is none. */
    static ghost function FirstTime(times: seq<uint64>): uint64 {
      if times == [] then UINT64_MAX
      else if times[0] != UINT64_MAX then times[0]
      else FirstTime(times[1..])
    }

    static lemma {:induction false} FirstTimePush(times: seq<uint64>, ts: uint64)
      ensures FirstTime(times + [ts]) == if FirstTime(times) == UINT64_MAX then ts else FirstTime(times)
    {
      if times == [] {
        assert [] + [ts] == [ts] && [ts][1..] == [];
      } else {
        assert (times + [ts])[1..] == times[1..] + [ts];
        FirstTimePush(times[1..], ts);
      }
    }

    /** The largest number is the largest one ever received, with its first receive time. */
    ghost predicate History()
      reads this
    {
      && firstRx.Keys == lastRx.Keys
      && (forall x :: x in firstRx ==> 0 <= x <= maxPktNum)
      && (if maxPktNum == -1 then firstRx == map[] else maxPktNum in firstRx && maxPktTs == firstRx[maxPktNum])
    }

    constructor ()
      ensures Valid() && ents == [] && acks == [] && maxPktNum == -1 && firstRx == map[] && unacked == []
      ensures Committed() && ect0 == ect1 == ce == 0 && maxPktTs == UINT64_MAX
    {
      ents, acks := [], [];
      firstUnackedTs, rxNpkt, maxPktNum, maxPktTs := UINT64_MAX, 0, -1, UINT64_MAX;
      ect0, ect1, ce := 0, 0, 0;
      activeAck, immediateAck, cancelTimer := false, false, false;
      firstRx, lastRx, unacked := map[], map[], [];
      new;
      assert forall x :: !Tracked([], x);
    }

    /** The first half of ngtcp2_acktr_add: put the number into a neighbouring entry, if any. */
    method Join(pktNum: nat, ts: uint64) returns (added: bool)
      requires Canonical(ents) && !Tracked(ents, pktNum) && Stamped(ents, lastRx)
      modifies `ents
      ensures added == (RangesAfter(old(ents), pktNum) <= |old(ents)|)
      ensures if added then Grown(old(ents), ents, pktNum, ts, lastRx) else ents == old(ents)
    {
      added := false;
      var i := LowerBound(ents, pktNum);
      Neighbours(ents, pktNum);
      if |ents| > 0 {
        if i == |ents| {
          var ent := ents[i-1];
          assert ent.pktNum >= pktNum + ent.len;
          if ent.pktNum == pktNum + ent.len {
            GrowDownAt(ents, i, pktNum, ts, lastRx);
            ents := ents[i-1 := ent.(len := ent.len + 1)];
            added := true;
          }
        } else {
          var ent := ents[i];
          assert ent.pktNum != pktNum;
          if i == 0 {
            if ent.pktNum + 1 == pktNum {
              GrowUpAt(ents, i, pktNum, ts, lastRx);
              ents := ents[i := Entry(pktNum, ent.len + 1, ts)];
              added := true;
            }
          } else {
            added := JoinBetween(i, pktNum, ts);
          }
        }
      }
    }

    /** The part of the first half of add for a number between two entries. */
    method JoinBetween(i: nat, pktNum: nat, ts: uint64) returns (added: bool)
      requires Canonical(ents) && !Tracked(ents, pktNum) && Stamped(ents, lastRx)
      requires 0 < i < |ents| && i == LowerBound(ents, pktNum)
      modifies `ents
      ensures added == (RangesAfter(old(ents), pktNum) <= |old(ents)|)
      ensures if added then Grown(old(ents), ents, pktNum, ts, lastRx) else ents == old(ents)
    {
      added := false;
      Neighbours(ents, pktNum);
      var ent, prev := ents[i], ents[i-1];
      assert prev.pktNum >= pktNum + prev.len;
      if ent.pktNum + 1 == pktNum {
        if prev.pktNum == pktNum + prev.len {
          FuseAt(ents, i, pktNum, ts, lastRx);
          ents := ents[..i-1] + [prev.(len := prev.len + ent.len + 1)] + ents[i+1..];
          added := true;
        } else {
          GrowUpAt(ents, i, pktNum, ts, lastRx);
          ents := ents[i := Entry(pktNum, ent.len + 1, ts)];
          added := true;
        }
      } else if prev.pktNum == pktNum + prev.len {
        GrowDownAt(ents, i, pktNum, ts, lastRx);
        ents := ents[i-1 := prev.(len := prev.len + 1)];
        added := true;
      }
    }

    /** Join, or else a new entry of length one. */
    method Insert(pktNum: nat, ts: uint64, nomem: bool) returns (rv: int)
      requires Canonical(ents) && !Tracked(ents, pktNum) && Stamped(ents, lastRx)
      modifies `ents
      ensures rv == if nomem && RangesAfter(old(ents), pktNum) > |old(ents)| then ERR_NOMEM else 0
      ensures if rv == 0 then Grown(old(ents), ents, pktNum, ts, lastRx) else ents == old(ents)
    {
      var added := Join(pktNum, ts);
      if !added {
        if nomem {
          return ERR_NOMEM;
        }
        var i := LowerBound(ents, pktNum);
        InsertAt(ents, i, pktNum, ts, lastRx);
        ents := ents[..i] + [Entry(pktNum, 1, ts)] + ents[i..];
      }
      return 0;
    }

    /** The eviction of ngtcp2_acktr_add: the lowest entry goes when the list is too long. */
    method Evict()
      requires Canonical(ents) && |ents| <= MAX_ENT + 1
      modifies `ents
      ensures Canonical(ents) && |ents| <= MAX_ENT && ents <= old(ents)
      ensures |old(ents)| <= MAX_ENT ==> ents == old(ents)
      ensures |old(ents)| > MAX_ENT ==> |ents| == MAX_ENT && AllButLowestRun(ents, Covered(old(ents)))
      ensures Covered(ents) <= Covered(old(ents))
    {
      if |ents| > MAX_ENT {
        EvictLast(ents);
        ents := ents[..|ents|-1];
      }
    }

    /** Insert, then evict.  An entry is allocated exactly when neither neighbour is tracked. */
    method Track(pktNum: nat, ts: uint64, nomem: bool) returns (rv: int)
      requires Known(ents, lastRx) && |ents| <= MAX_ENT && !Tracked(ents, pktNum)
      modifies `ents
      ensures rv == if nomem && RangesAfter(old(ents), pktNum) > |old(ents)| then ERR_NOMEM else 0
      ensures rv != 0 ==> ents == old(ents)
      ensures rv == 0 ==>
                && Known(ents, lastRx[pktNum := ts]) && |ents| <= MAX_ENT
                && AddedTo(old(ents), ents, pktNum)
    {
      rv := Insert(pktNum, ts, nomem);
      if rv == 0 {
        ghost var grown := ents;
        Evict();
        StillKnown(old(ents), grown, ents, pktNum, ts, lastRx);
      }
    }

    /** The end of ngtcp2_acktr_add: the largest number seen, and the ghost receive times. */
    method Record(pktNum: nat, ts: uint64)
      requires History()
      modifies `maxPktNum, `maxPktTs, `firstRx, `lastRx
      ensures History()
      ensures lastRx == old(lastRx)[pktNum := ts]
      ensures firstRx == if pktNum in old(firstRx) then old(firstRx) else old(firstRx)[pktNum := ts]
      ensures maxPktNum == if old(maxPktNum) < pktNum then pktNum else old(maxPktNum)
    {
      if maxPktNum < pktNum {
        maxPktNum := pktNum;
        maxPktTs := ts;
      }
      lastRx := lastRx[pktNum := ts];
      if pktNum !in firstRx {
        firstRx := firstRx[pktNum := ts];
      }
    }

    /** ngtcp2_acktr_add.  `nomem` is the outcome of the allocation, if there is one. */
    method Add(pktNum: nat, active: bool, ts: uint64, nomem: bool) returns (rv: int)
      requires Valid() && !Tracked(ents, pktNum)
      modifies `ents, `activeAck, `firstUnackedTs, `maxPktNum, `maxPktTs, `firstRx, `lastRx, `unacked
      ensures Valid()
      ensures rv == if nomem && RangesAfter(old(ents), pktNum) > |old(ents)| then ERR_NOMEM else 0
      ensures rv != 0 ==> unchanged(this)
      ensures rv == 0 ==> AddedTo(old(ents), ents, pktNum)
      ensures rv == 0 ==>
                && lastRx == old(lastRx)[pktNum := ts]
                && firstRx == (if pktNum in old(firstRx) then old(firstRx) else old(firstRx)[pktNum := ts])
                && maxPktNum == (if old(maxPktNum) < pktNum then pktNum else old(maxPktNum))
                && activeAck == (old(activeAck) || active)
                && unacked == (if active then old(unacked) + [ts] else old(unacked))
    {
      rv := Track(pktNum, ts, nomem);
      if rv != 0 {
        return;
      }
      if active {
        Pend(ts);
      }
      Record(pktNum, ts);
    }

    /** An ack-eliciting packet makes an ACK pending. */
    method Pend(ts: uint64)
      requires firstUnackedTs == FirstTime(unacked)
      modifies `activeAck, `firstUnackedTs, `unacked
      ensures firstUnackedTs == FirstTime(unacked) && activeAck && unacked == old(unacked) + [ts]
    {
      activeAck := true;
      firstUnackedTs := if firstUnackedTs == UINT64_MAX then ts else firstUnackedTs;
      FirstTimePush(unacked, ts);
      unacked := unacked + [ts];
    }

    /** ngtcp2_acktr_forget: everything up to and including the given entry goes. */
    method Forget(ent: Entry)
      requires Valid() && ent in ents
      modifies `ents
      ensures Valid()
      ensures Covered(ents) == iset x | x in old(Covered(ents)) && x > ent.pktNum
    {
      ghost var i := LowerBound(ents, ent.pktNum);
      EntryAt(ents, ent);
      assert ents[i].pktNum == ent.pktNum;
      PruneFrom(ent.pktNum);
      PrunedSet(old(ents), ent.pktNum, ents);
    }

    /** The removal loop shared by ngtcp2_acktr_forget and acktr_on_ack: drop the entries whose
        largest number is not above the bound. */
    method PruneFrom(bound: int)
      requires Canonical(ents)
      modifies `ents
      ensures ents == old(ents)[..LowerBound(old(ents), bound)]
    {
      var i := LowerBound(ents, bound);
      ghost var n := |ents|;
      while i < |ents|
        invariant i <= |ents| <= n == |old(ents)|
        invariant ents == old(ents)[..i] + old(ents)[n - (|ents| - i)..]
        decreases |ents|
      {
        ents := ents[..i] + ents[i+1..];
      }
    }

    /** ngtcp2_acktr_add_ack: pushing to the front of a full ring drops the oldest element. */
    method AddAck(pktNum: int, largestAck: int)
      requires Valid() && (acks != [] ==> acks[0].pktNum < pktNum)
      modifies `acks
      ensures Valid()
      ensures acks == [SentAck(largestAck, pktNum)]
                      + if |old(acks)| == RING_SIZE then old(acks)[..RING_SIZE-1] else old(acks)
    {
      var keep := if |acks| == RING_SIZE then acks[..RING_SIZE-1] else acks;
      acks := [SentAck(largestAck, pktNum)] + keep;
    }

    /** acktr_on_ack. */
    method OnAck(offset: nat)
      requires Valid() && offset < |acks|
      modifies `ents, `acks
      ensures Valid()
      ensures acks == old(acks)[..offset]
      ensures Covered(ents) == iset x | x in old(Covered(ents)) && x > old(acks)[offset].largestAck
    {
      var bound := acks[offset].largestAck;
      ghost var i := LowerBound(ents, bound);
      PruneFrom(bound);
      if |ents| > 0 {
        var last := |ents| - 1;
        var ent := ents[last];
        assert ent.pktNum > bound;
        if bound + ent.len > ent.pktNum {
          ents := ents[last := ent.(len := ent.pktNum - bound)];
        }
      }
      acks := acks[..offset];
      PrunedSet(old(ents), bound, ents);
    }

    /** ngtcp2_acktr_recv_ack: two indices walk down the ring and the frame's ranges. */
    method RecvAck(fr: AckFrame)
      requires Valid()
      modifies `ents, `acks
      ensures Valid()
      ensures var j := NewestAcked(old(acks), fr);
              if j == |old(acks)| then ents == old(ents) && acks == old(acks)
              else
                && acks == old(acks)[..j]
                && Covered(ents) == iset x | x in old(Covered(ents)) && x > old(acks)[j].largestAck
    {
      var j := WalkRing(acks, fr);
      if j < |acks| {
        OnAck(j);
      }
    }

    /** ngtcp2_acktr_commit_ack. */
    method CommitAck()
      modifies `activeAck, `immediateAck, `cancelTimer, `firstUnackedTs, `rxNpkt, `unacked
      ensures Committed()
    {
      activeAck, immediateAck, cancelTimer := false, false, false;
      firstUnackedTs, rxNpkt, unacked := UINT64_MAX, 0, [];
    }

    /** No ACK is pending. */
    ghost predicate Committed()
      reads `activeAck, `immediateAck, `cancelTimer, `firstUnackedTs, `rxNpkt, `unacked
    {
      && !activeAck && !immediateAck && !cancelTimer && rxNpkt == 0
      && unacked == [] && firstUnackedTs == UINT64_MAX
    }

    /** ngtcp2_tstamp_elapsed on the first unacknowledged time. */
    predicate RequireActiveAck(maxAckDelay: uint64, ts: uint64)
      reads `firstUnackedTs
    {
      firstUnackedTs != UINT64_MAX && firstUnackedTs < UINT64_MAX - maxAckDelay && firstUnackedTs + maxAckDelay <= ts
    }

    /** The receive time that the frame's delay is measured from. */
    ghost function LargestAckTs(): uint64
      requires Valid() && maxPktNum != -1
      reads this
    {
      if Tracked(ents, maxPktNum) then lastRx[maxPktNum] else firstRx[maxPktNum]
    }

    /** ngtcp2_acktr_create_ack_frame.  Nothing is returned when no ACK is due or nothing is
        tracked; in the second case the pending state is also cleared. */
    method CreateAckFrame(oneRtt: bool, ts: uint64, ackDelay: uint64, exponent: nat) returns (fr: Option<AckFrame>)
      requires Valid()
      modifies `activeAck, `immediateAck, `cancelTimer, `firstUnackedTs, `rxNpkt, `unacked
      ensures Valid()
      // a frame is made if the first ack-eliciting packet has waited for the delay, or for nothing at once
      ensures var first, delay := old(FirstTime(unacked)), if old(immediateAck) then 0 else ackDelay;
              var due := first != UINT64_MAX && first + delay < UINT64_MAX && first + delay <= ts;
              && (fr.Some? <==> due && ents != [])
              && (if due && ents == [] then Committed() else unchanged(this))
      ensures fr.Some? ==> Acknowledges(fr.value, oneRtt, ts, exponent)
    {
      var delay := if immediateAck then 0 else ackDelay;
      if !RequireActiveAck(delay, ts) {
        return None;
      }
      if |ents| == 0 {
        CommitAck();
        return None;
      }
      var f := FrameNow(oneRtt, ts, exponent);
      return Some(f);
    }

    /** The frame holds exactly what is to be acknowledged, all of it received, with the delay since
        its largest number came in. */
    ghost predicate Acknowledges(fr: AckFrame, oneRtt: bool, ts: uint64, exponent: nat)
      reads this
      requires Valid() && ents != []
    {
      && fr.largestAck == maxPktNum && |fr.ranges| <= MAX_ACK_RANGES
      && Decode(fr) == ToAcknowledge(ents, maxPktNum)
      && Received(Decode(fr), lastRx)
      && fr.ackDelayUnscaled == (if oneRtt then (ts - LargestAckTs()) % TWO64 else 0)
      && (oneRtt && LargestAckTs() <= ts ==> fr.ackDelayUnscaled == ts - LargestAckTs())
      && DelayOf(fr.ackDelay, fr.ackDelayUnscaled, exponent)
      && fr.ecn == (ect0 + ect1 + ce != 0)
      && fr.ect0 == ect0 && fr.ect1 == ect1 && fr.ce == ce
    }

    method FrameNow(oneRtt: bool, ts: uint64, exponent: nat) returns (fr: AckFrame)
      requires Valid() && ents != []
      ensures Acknowledges(fr, oneRtt, ts, exponent)
    {
      TopAgainstMax();
      var f := ComposeFrame(ents, maxPktNum, maxPktTs, oneRtt, ts, exponent);
      fr := f.(ecn := ect0 != 0 || ect1 != 0 || ce != 0, ect0 := ect0, ect1 := ect1, ce := ce);
      assert Decode(fr) == Decode(f);
    }

    /** The top entry never exceeds the largest number received. */
    lemma TopAgainstMax()
      requires Valid() && ents != []
      ensures ents[0].pktNum <= maxPktNum && maxPktNum in firstRx
      ensures Tracked(ents, maxPktNum) ==> ents[0].pktNum == maxPktNum
      ensures Received(ToAcknowledge(ents, maxPktNum), lastRx)
      ensures LargestAckTs() == if Tracked(ents, maxPktNum) then ents[0].tstamp else maxPktTs
    {
      ToAcknowledgeTracked(ents, maxPktNum);
      assert Holds(ents[0], ents[0].pktNum);
      assert ents[0].pktNum in Covered(ents);
      TopEntry(ents, maxPktNum);
    }
  }

  /** Section 19.3 of RFC 9000: the encoded delay is in units of 2^exponent microseconds. */
  predicate DelayOf(encoded: nat, unscaled: nat, exponent: nat) {
    encoded * Pow2(exponent) * MICROSECONDS <= unscaled < (encoded + 1) * Pow2(exponent) * MICROSECONDS
  }

  function ScaledDelay(unscaled: uint64, exponent: nat): (r: uint64)
    ensures DelayOf(r, unscaled, exponent)
  {
    DivTwice(unscaled, MICROSECONDS, Pow2(exponent));
    QuotientFits(unscaled / MICROSECONDS, Pow2(exponent));
    unscaled / MICROSECONDS / Pow2(exponent)
  }

  /** What a frame built from the list must acknowledge: the tracked numbers and the largest
      number received, but without the lowest range when a full list leaves no room for it. */
  ghost function ToAcknowledge(es: seq<Entry>, max: int): iset<int> {
    var kept := if |es| > MAX_ACK_RANGES && !Tracked(es, max) && !Tracked(es, max - 1)
                then es[..MAX_ACK_RANGES] else es;
    Covered(kept) + iset{max}
  }

  method ComposeFrame(es: seq<Entry>, max: int, maxTs: uint64, oneRtt: bool, ts: uint64, exponent: nat)
    returns (fr: AckFrame)
    requires Canonical(es) && 0 < |es| <= MAX_ENT && es[0].pktNum <= max
    ensures Decode(fr) == ToAcknowledge(es, max)
    ensures fr.largestAck == max && |fr.ranges| <= MAX_ACK_RANGES
    ensures fr.ackDelayUnscaled ==
            if oneRtt then (ts - if Tracked(es, max) then es[0].tstamp else maxTs) % TWO64 else 0
    ensures DelayOf(fr.ackDelay, fr.ackDelayUnscaled, exponent)
  {
    var largestTs, first, skip := FirstRange(es, max, maxTs);
    var unscaled := if oneRtt then (ts - largestTs) % TWO64 else 0;
    var numAcks := Min(|es| - skip, MAX_ACK_RANGES);
    var ranges := BuildRanges(es, skip, numAcks, max - first);
    fr := AckFrame(false, 0, 0, 0, max, first, unscaled, ScaledDelay(unscaled, exponent), ranges);
    FrameSet(es, max, skip, numAcks, fr);
  }

  lemma FrameSet(es: seq<Entry>, max: int, skip: nat, n: nat, fr: AckFrame)
    requires skip == if Tracked(es, max) || Tracked(es, max - 1) then 1 else 0
    requires skip <= |es| <= MAX_ENT && n == Min(|es| - skip, MAX_ACK_RANGES) && fr.largestAck == max
    requires Interval(max - fr.firstAckRange, max) == Covered(es[..skip]) + iset{max}
    requires DecodeRanges(max - fr.firstAckRange, fr.ranges) == Covered(es[skip..skip+n])
    ensures Decode(fr) == ToAcknowledge(es, max)
  {
    FirstEntries(es, skip, skip + n);
  }

  lemma FirstEntries(es: seq<Entry>, i: nat, j: nat)
    requires i <= j <= |es|
    ensures Covered(es[..i]) + Covered(es[i..j]) == Covered(es[..j])
    ensures j == |es| ==> es[..j] == es
  {
    assert es[..j] == es[..i] + es[i..j];
    CoveredConcat(es[..i], es[i..j]);
  }

  lemma ToAcknowledgeTracked(es: seq<Entry>, max: int)
    requires Canonical(es)
    ensures ToAcknowledge(es, max) <= Covered(es) + iset{max}
  {
    if |es| > MAX_ACK_RANGES { CanonicalSplit(es, MAX_ACK_RANGES); }
  }

  /** The top of the frame in ngtcp2_acktr_create_ack_frame: the largest number received goes
      in whether or not it is still tracked, alone or with the entry right below it. */
  method FirstRange(es: seq<Entry>, max: int, maxTs: uint64) returns (ts: uint64, first: nat, skip: nat)
    requires Canonical(es) && es != [] && es[0].pktNum <= max
    ensures skip == if Tracked(es, max) || Tracked(es, max - 1) then 1 else 0
    ensures ts == if Tracked(es, max) then es[0].tstamp else maxTs
    ensures Interval(max - first, max) == Covered(es[..skip]) + iset{max}
    ensures skip < |es| ==> es[skip].pktNum + 2 <= max - first
  {
    TopEntry(es, max);
    var rpkt := es[0];
    assert es[..1] == [rpkt];
    CoveredOne(rpkt);
    assert |es| > 1 ==> Apart(es[0], es[1]);
    if rpkt.pktNum == max {
      ts, first, skip := rpkt.tstamp, rpkt.len - 1, 1;
    } else if rpkt.pktNum + 1 == max {
      ts, first, skip := maxTs, rpkt.len, 1;
    } else {
      assert rpkt.pktNum < max;
      ts, first, skip := maxTs, 0, 0;
      assert forall x :: !Tracked([], x);
    }
  }

  lemma TopEntry(es: seq<Entry>, max: int)
    requires Canonical(es) && es != [] && es[0].pktNum <= max
    ensures Tracked(es, max) <==> es[0].pktNum == max
    ensures Tracked(es, max - 1) && !Tracked(es, max) <==> es[0].pktNum + 1 == max
    ensures Tracked(es, max) || Tracked(es, max - 1) <==> es[0].pktNum + 1 >= max
  {
    assert Holds(es[0], es[0].pktNum);
    forall k | 0 < k < |es| ensures es[k].pktNum + 1 < es[0].pktNum { assert Apart(es[0], es[k]); }
  }

  /** The range loop of ngtcp2_acktr_create_ack_frame. */
  method BuildRanges(es: seq<Entry>, skip: nat, count: nat, last: int) returns (rs: seq<AckRange>)
    requires Canonical(es) && skip + count <= |es|
    requires skip < |es| ==> es[skip].pktNum + 2 <= last
    ensures |rs| == count
    ensures DecodeRanges(last, rs) == Covered(es[skip..skip+count])
  {
    rs := [];
    var lastPktNum := last;
    assert forall x :: !Tracked([], x);
    while |rs| < count
      invariant |rs| <= count
      invariant lastPktNum == SmallestAfter(last, rs)
      invariant skip + |rs| < |es| ==> es[skip + |rs|].pktNum + 2 <= lastPktNum
      invariant DecodeRanges(last, rs) == Covered(es[skip..skip+|rs|])
    {
      var i := skip + |rs|;
      var rpkt := es[i];
      var range := AckRange(lastPktNum - rpkt.pktNum - 2, rpkt.len - 1);
      DecodeAppend(last, rs, range);
      assert es[skip..i+1] == es[skip..i] + [rpkt];
      CoveredConcat(es[skip..i], [rpkt]);
      CoveredOne(rpkt);
      assert i + 1 < |es| ==> Apart(es[i], es[i+1]);
      rs := rs + [range];
      lastPktNum := rpkt.pktNum - (rpkt.len - 1);
    }
  }

  /** The search of ngtcp2_acktr_recv_ack: two indices walk down the ring and the frame's
      ranges, and find what a search of the ring entry by entry finds. */
  method WalkRing(acks: seq<SentAck>, fr: AckFrame) returns (j: nat)
    requires NewestFirst(acks)
    ensures j == NewestAcked(acks, fr)
  {
    var largest, nacks := fr.largestAck, |acks|;
    j := 0;
    while j < nacks && largest < acks[j].pktNum
      invariant 0 <= j <= nacks
      invariant forall k :: 0 <= k < j ==> largest < acks[k].pktNum
    {
      j := j + 1;
    }
    var min := largest - fr.firstAckRange;
    AboveFrame(fr, acks, j);
    if j == nacks || min <= acks[j].pktNum {
      AckedIndex(acks, fr, j);
      return;
    }
    var i := 0;
    while i < |fr.ranges|
      invariant 0 <= i <= |fr.ranges| && 0 <= j < nacks
      invariant acks[j].pktNum < min
      invariant NoneBefore(acks, fr, j)
      invariant LeftToDecode(fr, min, i)
    {
      ghost var min0 := min;
      largest := min - fr.ranges[i].gap - 2;
      min := largest - fr.ranges[i].len;
      j := SkipAbove(acks, fr, min0, i, largest, j);
      if j == nacks {
        AckedIndex(acks, fr, j);
        return;
      }
      NextRange(fr, min0, i, acks[j].pktNum);
      if acks[j].pktNum >= min {
        AckedIndex(acks, fr, j);
        return;
      }
      i := i + 1;
    }
    NoneLeft(acks, fr, j, min);
    j := nacks;
    AckedIndex(acks, fr, j);
  }

  /** The inner loop of the walk: past the ring entries above the range. */
  method SkipAbove(acks: seq<SentAck>, ghost fr: AckFrame, ghost min: int, ghost i: nat, largest: int, from: nat)
    returns (j: nat)
    requires NewestFirst(acks) && from < |acks| && acks[from].pktNum < min && NoneBefore(acks, fr, from)
    requires i < |fr.ranges| && LeftToDecode(fr, min, i) && largest == min - fr.ranges[i].gap - 2
    ensures from <= j <= |acks| && NoneBefore(acks, fr, j)
    ensures j < |acks| ==> acks[j].pktNum <= largest
  {
    j := from;
    while largest < acks[j].pktNum
      invariant from <= j < |acks| && acks[j].pktNum < min
      invariant NoneBefore(acks, fr, j)
      decreases |acks| - j
    {
      AboveRange(fr, min, i, acks[j].pktNum);
      j := j + 1;
      if j == |acks| {
        return;
      }
    }
  }

  ghost predicate NoneBefore(acks: seq<SentAck>, fr: AckFrame, j: int)
    requires j <= |acks|
  {
    forall k :: 0 <= k < j ==> acks[k].pktNum !in Decode(fr)
  }

  /** Below min, the frame holds what its ranges from the i-th on hold. */
  ghost predicate LeftToDecode(fr: AckFrame, min: int, i: nat)
    requires i <= |fr.ranges|
  {
    forall x :: x < min ==> (x in Decode(fr) <==> x in DecodeRanges(min, fr.ranges[i..]))
  }

  /** What lies above the next range is not acknowledged. */
  lemma AboveRange(fr: AckFrame, min: int, i: nat, y: int)
    requires i < |fr.ranges| && LeftToDecode(fr, min, i) && min - fr.ranges[i].gap - 2 < y < min
    ensures y !in Decode(fr)
  {
    NextRange(fr, min, i, y);
  }

  lemma NextRange(fr: AckFrame, min: int, i: nat, y: int)
    requires i < |fr.ranges| && LeftToDecode(fr, min, i) && y < min
    ensures var hi := min - fr.ranges[i].gap - 2;
            var lo := hi - fr.ranges[i].len;
            && (hi < y ==> y !in Decode(fr)) && (lo <= y <= hi ==> y in Decode(fr))
            && LeftToDecode(fr, lo, i + 1)
  {
    var hi := min - fr.ranges[i].gap - 2;
    var lo := hi - fr.ranges[i].len;
    var rest := fr.ranges[i+1..];
    assert fr.ranges[i..][1..] == rest;
    forall x | x in DecodeRanges(lo, rest) ensures x < lo { RangesLieBelow(lo, rest, x); }
    assert y in Decode(fr) <==> y in Interval(lo, hi) + DecodeRanges(lo, rest);
    assert lo <= y <= hi <==> Between(lo, y, hi);
  }

  lemma NoneLeft(acks: seq<SentAck>, fr: AckFrame, j: nat, min: int)
    requires NewestFirst(acks) && j < |acks| && acks[j].pktNum < min && NoneBefore(acks, fr, j)
    requires LeftToDecode(fr, min, |fr.ranges|)
    ensures NoneBefore(acks, fr, |acks|)
  {
    forall k | j <= k < |acks| ensures acks[k].pktNum !in Decode(fr) {
      assert acks[k].pktNum < min;
    }
  }

  lemma AboveFrame(fr: AckFrame, acks: seq<SentAck>, j: nat)
    requires j <= |acks| && forall k :: 0 <= k < j ==> fr.largestAck < acks[k].pktNum
    ensures NoneBefore(acks, fr, j)
    ensures var lo := fr.largestAck - fr.firstAckRange;
            && LeftToDecode(fr, lo, 0)
            && (j < |acks| && lo <= acks[j].pktNum <= fr.largestAck ==> acks[j].pktNum in Decode(fr))
  {
    var lo := fr.largestAck - fr.firstAckRange;
    if j < |acks| && Between(lo, acks[j].pktNum, fr.largestAck) { }
    assert fr.ranges[0..] == fr.ranges;
    forall x | x in DecodeRanges(lo, fr.ranges) ensures x < lo { RangesLieBelow(lo, fr.ranges, x); }
  }

  lemma AckedIndex(acks: seq<SentAck>, fr: AckFrame, j: nat)
    requires j <= |acks| && (j < |acks| ==> acks[j].pktNum in Decode(fr))
    requires NoneBefore(acks, fr, j)
    ensures NewestAcked(acks, fr) == j
  {
  }

  lemma EntryAt(es: seq<Entry>, ent: Entry)
    requires Canonical(es) && ent in es
    ensures var i := LowerBound(es, ent.pktNum);
            && i < |es| && es[i] == ent
            && (i > 0 ==> ent.pktNum < Low(es[i-1]))
  {
    var i := LowerBound(es, ent.pktNum);
    assert 0 < i < |es| ==> Apart(es[i-1], es[i]);
    forall m | i < m < |es| ensures es[m].pktNum < es[i].pktNum { assert Apart(es[i], es[m]); }
  }

  lemma PrunedSet(es: seq<Entry>, bound: int, es': seq<Entry>)
    requires Canonical(es)
    requires var i := LowerBound(es, bound);
             if i == 0 then es' == []
             else if Low(es[i-1]) <= bound then es' == es[..i][i-1 := es[i-1].(len := es[i-1].pktNum - bound)]
             else es' == es[..i]
    ensures Canonical(es') && Covered(es') == iset x | x in Covered(es) && x > bound
  {
    var i := LowerBound(es, bound);
    if i > 0 && Low(es[i-1]) <= bound {
      var top := es[i-1].pktNum;
      CanonicalSplit(es, i);
      forall x | x in Covered(es[i..]) ensures x <= bound { BoundsOf(es[i..], x); }
      TrimLast(es[..i], bound);
    } else {
      Cut(es, i, bound);
    }
  }

  lemma StillKnown(es: seq<Entry>, grown: seq<Entry>, kept: seq<Entry>, x: int, ts: uint64, rx: map<int, uint64>)
    requires Grown(es, grown, x, ts, rx) && Received(Covered(es), rx)
    requires Canonical(kept) && kept <= grown && Covered(kept) <= Covered(grown)
    ensures Known(kept, rx[x := ts])
  {
  }

  lemma EvictLast(es: seq<Entry>)
    requires Canonical(es) && es != []
    ensures var r := es[..|es|-1];
            Canonical(r) && AllButLowestRun(r, Covered(es)) && Covered(r) <= Covered(es)
  {
    var r, e := es[..|es|-1], es[|es|-1];
    assert es == r + [e];
    CoveredConcat(r, [e]);
    assert Canonical(r);
    assert Canonical(r + [e]) && Covered(r + [e]) == Covered(es);
  }

  lemma StampLater(es: seq<Entry>, rx: map<int, uint64>, x: int, ts: uint64)
    requires Canonical(es) && !Tracked(es, x) && Stamped(es, rx)
    ensures Stamped(es, rx[x := ts])
  {
    forall i | 0 <= i < |es| ensures es[i].pktNum != x { assert !Holds(es[i], x); }
  }

  lemma StampedConcat(a: seq<Entry>, b: seq<Entry>, rx: map<int, uint64>)
    requires Stamped(a, rx) && Stamped(b, rx)
    ensures Stamped(a + b, rx)
  {
  }

  lemma GrowDownAt(es: seq<Entry>, i: nat, x: int, ts: uint64, rx: map<int, uint64>)
    requires Canonical(es) && !Tracked(es, x) && Stamped(es, rx) && i == LowerBound(es, x)
    requires i > 0 && Low(es[i-1]) == x + 1 && (i < |es| ==> es[i].pktNum + 1 != x)
    ensures Grown(es, es[i-1 := es[i-1].(len := es[i-1].len + 1)], x, ts, rx)
  {
    Neighbours(es, x);
    StampLater(es, rx, x, ts);
    GrowDown(es, i - 1, x);
  }

  lemma GrowUpAt(es: seq<Entry>, i: nat, x: int, ts: uint64, rx: map<int, uint64>)
    requires Canonical(es) && !Tracked(es, x) && Stamped(es, rx) && i == LowerBound(es, x)
    requires i < |es| && es[i].pktNum + 1 == x && (i > 0 ==> Low(es[i-1]) != x + 1)
    ensures Grown(es, es[i := Entry(x, es[i].len + 1, ts)], x, ts, rx)
  {
    Neighbours(es, x);
    StampLater(es, rx, x, ts);
    GrowUp(es, i, x, ts);
  }

  lemma FuseAt(es: seq<Entry>, i: nat, x: int, ts: uint64, rx: map<int, uint64>)
    requires Canonical(es) && !Tracked(es, x) && Stamped(es, rx) && i == LowerBound(es, x)
    requires 0 < i < |es| && x == es[i].pktNum + 1 == Low(es[i-1]) - 1
    ensures var p := es[i-1].(len := es[i-1].len + es[i].len + 1);
            Grown(es, es[..i-1] + [p] + es[i+1..], x, ts, rx)
  {
    Neighbours(es, x);
    StampLater(es, rx, x, ts);
    FuseSet(es, i, x);
    FuseStamps(es, i, rx[x := ts]);
  }

  lemma FuseSet(es: seq<Entry>, i: nat, x: int)
    requires Canonical(es) && 0 < i < |es| && x == es[i].pktNum + 1 == Low(es[i-1]) - 1
    ensures var r := es[..i-1] + [es[i-1].(len := es[i-1].len + es[i].len + 1)] + es[i+1..];
            Canonical(r) && Covered(r) == Covered(es) + iset{x}
  {
    var l, r := es[..i-1], es[i+1..];
    assert es == l + [es[i-1]] + ([es[i]] + r);
    assert i > 1 ==> Apart(es[i-2], es[i-1]);
    assert i + 1 < |es| ==> Apart(es[i], es[i+1]);
    Fuse(l, es[i-1], es[i], r, x);
  }

  lemma FuseStamps(es: seq<Entry>, i: nat, rx: map<int, uint64>)
    requires 0 < i < |es| && Stamped(es, rx)
    ensures Stamped(es[..i-1] + [es[i-1].(len := es[i-1].len + es[i].len + 1)] + es[i+1..], rx)
  {
    var l, p, r := es[..i-1], es[i-1].(len := es[i-1].len + es[i].len + 1), es[i+1..];
    StampedSlices(es, i - 1, i + 1, rx);
    StampedConcat(l, [p], rx);
    StampedConcat(l + [p], r, rx);
  }

  lemma StampedSlices(es: seq<Entry>, i: nat, j: nat, rx: map<int, uint64>)
    requires i <= |es| && j <= |es| && Stamped(es, rx)
    ensures Stamped(es[..i], rx) && Stamped(es[j..], rx)
  {
  }

  lemma InsertAt(es: seq<Entry>, i: nat, x: int, ts: uint64, rx: map<int, uint64>)
    requires Canonical(es) && !Tracked(es, x) && Stamped(es, rx) && i == LowerBound(es, x)
    requires !Tracked(es, x - 1) && !Tracked(es, x + 1)
    ensures Grown(es, es[..i] + [Entry(x, 1, ts)] + es[i..], x, ts, rx)
  {
    Neighbours(es, x);
    StampLater(es, rx, x, ts);
    InsertSet(es, i, x, ts);
    StampedSlices(es, i, i, rx[x := ts]);
    StampedConcat(es[..i], [Entry(x, 1, ts)], rx[x := ts]);
    StampedConcat(es[..i] + [Entry(x, 1, ts)], es[i..], rx[x := ts]);
  }

  lemma InsertSet(es: seq<Entry>, i: nat, x: int, ts: uint64)
    requires Canonical(es) && i <= |es|
    requires (i > 0 ==> x + 1 < Low(es[i-1])) && (i < |es| ==> es[i].pktNum + 1 < x)
    ensures var r := es[..i] + [Entry(x, 1, ts)] + es[i..];
            Canonical(r) && Covered(r) == Covered(es) + iset{x}
  {
    CanonicalSplit(es, i);
    InsertNew(es[..i], es[i..], x, ts);
  }
}
