/** The interval list of the ACK tracker and the ACK frame, both as sets of packet numbers.

    An entry stands for the packet numbers pktNum - len + 1 .. pktNum.  A list of entries is
    canonical when it is strictly descending and no two entries touch, so that every entry is
    a maximal run of consecutive numbers.  */
module AckRanges {
  import opened Arith

  datatype Entry = Entry(pktNum: int, len: nat, tstamp: uint64)

  function Low(e: Entry): int { e.pktNum - e.len + 1 }

  predicate Holds(e: Entry, x: int) { Low(e) <= x <= e.pktNum }

  predicate Tracked(es: seq<Entry>, x: int) {
    exists i :: 0 <= i < |es| && Holds(es[i], x)
  }

  /** The set of packet numbers a list stands for. */
  ghost function Covered(es: seq<Entry>): iset<int> { iset x | Tracked(es, x) }

  /** The upper entry starts above the lower one, and the two do not touch. */
  predicate Apart(upper: Entry, lower: Entry) { lower.pktNum + 1 < Low(upper) }

  /** Strictly descending, non-empty, disjoint and non-adjacent. */
  ghost predicate Canonical(es: seq<Entry>) {
    && (forall i :: 0 <= i < |es| ==> es[i].len >= 1)
    && (forall i, j {:trigger Apart(es[i], es[j])} :: 0 <= i < j < |es| ==> Apart(es[i], es[j]))
  }

  /** ngtcp2_ksl_lower_bound under the "greater" order: the first key not above the probe. */
  function LowerBound(es: seq<Entry>, probe: int): (i: nat)
    ensures i <= |es|
    ensures forall k :: 0 <= k < i ==> probe < es[k].pktNum
    ensures i < |es| ==> es[i].pktNum <= probe
  {
    if es == [] || es[0].pktNum <= probe then 0
    else 1 + LowerBound(es[1..], probe)
  }

  ghost function Interval(lo: int, hi: int): iset<int> {
    iset x {:trigger Between(lo, x, hi)} | Between(lo, x, hi)
  }

  predicate Between(lo: int, x: int, hi: int) { lo <= x <= hi }

  // ----- sets of concatenations

  lemma CoveredConcat(a: seq<Entry>, b: seq<Entry>)
    ensures Covered(a + b) == Covered(a) + Covered(b)
  {
    forall x ensures Tracked(a + b, x) <==> Tracked(a, x) || Tracked(b, x) {
      if Tracked(a + b, x) {
        var k :| 0 <= k < |a + b| && Holds((a + b)[k], x);
        if k < |a| { assert Holds(a[k], x); } else { assert Holds(b[k - |a|], x); }
      }
      if Tracked(a, x) {
        var k :| 0 <= k < |a| && Holds(a[k], x);
        assert Holds((a + b)[k], x);
      }
      if Tracked(b, x) {
        var k :| 0 <= k < |b| && Holds(b[k], x);
        assert Holds((a + b)[|a| + k], x);
      }
    }
  }

  lemma CoveredOne(e: Entry)
    ensures Covered([e]) == Interval(Low(e), e.pktNum)
  {
    forall x ensures Tracked([e], x) <==> Between(Low(e), x, e.pktNum) {
      if Holds(e, x) { assert Holds([e][0], x); }
    }
  }

  lemma CoveredAround(l: seq<Entry>, e: Entry, r: seq<Entry>)
    ensures Covered(l + [e] + r) == Covered(l) + Interval(Low(e), e.pktNum) + Covered(r)
  {
    CoveredConcat(l + [e], r);
    CoveredConcat(l, [e]);
    CoveredOne(e);
  }

  lemma BoundsOf(es: seq<Entry>, x: int)
    requires Canonical(es) && x in Covered(es)
    ensures es != [] && Low(es[|es|-1]) <= x <= es[0].pktNum
  {
    var k :| 0 <= k < |es| && Holds(es[k], x);
    assert k < |es| - 1 ==> Apart(es[k], es[|es|-1]);
    assert k > 0 ==> Apart(es[0], es[k]);
  }

  /** Canonical lists compose when the left one ends well above where the right one starts. */
  lemma CanonicalConcat(a: seq<Entry>, b: seq<Entry>)
    requires Canonical(a) && Canonical(b)
    requires a != [] && b != [] ==> Apart(a[|a|-1], b[0])
    ensures Canonical(a + b)
  {
    var r := a + b;
    forall i, j | 0 <= i < j < |r| ensures Apart(r[i], r[j]) {
      if i < |a| <= j {
        assert i < |a| - 1 ==> Apart(a[i], a[|a|-1]);
        assert j > |a| ==> Apart(b[0], b[j - |a|]);
      }
    }
  }

  lemma CanonicalAround(l: seq<Entry>, e: Entry, r: seq<Entry>)
    requires Canonical(l) && Canonical(r) && e.len >= 1
    requires l != [] ==> Apart(l[|l|-1], e)
    requires r != [] ==> Apart(e, r[0])
    ensures Canonical(l + [e] + r)
  {
    CanonicalConcat(l, [e]);
    CanonicalConcat(l + [e], r);
  }

  /** A canonical list split at i. */
  lemma CanonicalSplit(es: seq<Entry>, i: nat)
    requires Canonical(es) && i <= |es|
    ensures Canonical(es[..i]) && Canonical(es[i..])
    ensures es == es[..i] + es[i..]
    ensures Covered(es) == Covered(es[..i]) + Covered(es[i..])
    ensures 0 < i < |es| ==> Apart(es[i-1], es[i])
  {
    assert es == es[..i] + es[i..];
    CoveredConcat(es[..i], es[i..]);
  }

  // ----- the four ways in which one number joins the list

  /** The pieces around entry i, each canonical, with the gaps between them. */
  lemma Around(es: seq<Entry>, i: nat)
    requires Canonical(es) && i < |es|
    ensures Canonical(es[..i]) && Canonical(es[i+1..])
    ensures es == es[..i] + [es[i]] + es[i+1..]
    ensures Covered(es) == Covered(es[..i]) + Interval(Low(es[i]), es[i].pktNum) + Covered(es[i+1..])
  {
    assert es == es[..i] + [es[i]] + es[i+1..];
    CoveredAround(es[..i], es[i], es[i+1..]);
  }

  /** Replacing entry i by one that holds more. */
  lemma Replace(es: seq<Entry>, i: nat, e': Entry)
    requires Canonical(es) && i < |es| && e'.len >= 1
    requires i > 0 ==> Apart(es[i-1], e')
    requires i + 1 < |es| ==> Apart(e', es[i+1])
    requires Low(e') <= Low(es[i]) && es[i].pktNum <= e'.pktNum
    ensures Canonical(es[i := e'])
    ensures Covered(es[i := e']) == Covered(es) + Interval(Low(e'), e'.pktNum)
  {
    Around(es, i);
    var l, r := es[..i], es[i+1..];
    assert es[i := e'] == l + [e'] + r;
    CoveredAround(l, e', r);
    CanonicalAround(l, e', r);
    assert Interval(Low(es[i]), es[i].pktNum) <= Interval(Low(e'), e'.pktNum);
  }

  lemma GrowDown(es: seq<Entry>, i: nat, x: int)
    requires Canonical(es) && i < |es| && x == Low(es[i]) - 1
    requires i + 1 < |es| ==> es[i+1].pktNum + 1 < x
    ensures var r := es[i := es[i].(len := es[i].len + 1)];
            Canonical(r) && Covered(r) == Covered(es) + iset{x}
  {
    assert i > 0 ==> Apart(es[i-1], es[i]);
    Replace(es, i, es[i].(len := es[i].len + 1));
    MemberInterval(es, i);
    assert Interval(x, es[i].pktNum) == Interval(Low(es[i]), es[i].pktNum) + iset{x};
  }

  lemma GrowUp(es: seq<Entry>, i: nat, x: int, ts: uint64)
    requires Canonical(es) && i < |es| && x == es[i].pktNum + 1
    requires i > 0 ==> x + 1 < Low(es[i-1])
    ensures var r := es[i := Entry(x, es[i].len + 1, ts)];
            Canonical(r) && Covered(r) == Covered(es) + iset{x}
  {
    assert i + 1 < |es| ==> Apart(es[i], es[i+1]);
    Replace(es, i, Entry(x, es[i].len + 1, ts));
    MemberInterval(es, i);
    assert Interval(Low(es[i]), x) == Interval(Low(es[i]), es[i].pktNum) + iset{x};
  }

  lemma MemberInterval(es: seq<Entry>, i: nat)
    requires i < |es|
    ensures Interval(Low(es[i]), es[i].pktNum) <= Covered(es)
  {
    assert es == es[..i] + [es[i]] + es[i+1..];
    CoveredAround(es[..i], es[i], es[i+1..]);
  }

  lemma Fuse(l: seq<Entry>, p: Entry, e: Entry, r: seq<Entry>, x: int)
    requires Canonical(l) && Canonical(r) && p.len >= 1 && e.len >= 1
    requires l != [] ==> Apart(l[|l|-1], p)
    requires r != [] ==> Apart(e, r[0])
    requires x == e.pktNum + 1 == Low(p) - 1
    ensures var p' := p.(len := p.len + e.len + 1);
            && Canonical(l + [p'] + r)
            && Covered(l + [p'] + r) == Covered(l + [p] + ([e] + r)) + iset{x}
  {
    var p' := p.(len := p.len + e.len + 1);
    CanonicalAround(l, p', r);
    CoveredAround(l, p', r);
    CoveredAround(l, p, [e] + r);
    CoveredConcat([e], r);
    CoveredOne(e);
    JoinedSet(p, e, p', x);
  }

  lemma JoinedSet(p: Entry, e: Entry, e': Entry, x: int)
    requires p.len >= 1 && e.len >= 1
    requires x == e.pktNum + 1 == Low(p) - 1 && Low(e') == Low(e) && e'.pktNum == p.pktNum
    ensures Interval(Low(e'), e'.pktNum)
         == Interval(Low(p), p.pktNum) + Interval(Low(e), e.pktNum) + iset{x}
  {
  }

  lemma InsertNew(l: seq<Entry>, r: seq<Entry>, x: int, ts: uint64)
    requires Canonical(l) && Canonical(r)
    requires l != [] ==> x + 1 < Low(l[|l|-1])
    requires r != [] ==> r[0].pktNum + 1 < x
    ensures Canonical(l + [Entry(x, 1, ts)] + r)
    ensures Covered(l + [Entry(x, 1, ts)] + r) == Covered(l + r) + iset{x}
  {
    CanonicalAround(l, Entry(x, 1, ts), r);
    CoveredAround(l, Entry(x, 1, ts), r);
    CoveredConcat(l, r);
    assert Interval(x, x) == iset{x};
  }

  // ----- pruning

  /** Cutting a canonical list after i entries keeps exactly the numbers above the cut. */
  lemma Cut(es: seq<Entry>, i: nat, bound: int)
    requires Canonical(es) && i <= |es|
    requires i < |es| ==> es[i].pktNum <= bound
    requires i > 0 ==> bound < Low(es[i-1])
    ensures Canonical(es[..i])
    ensures Covered(es[..i]) == iset x | x in Covered(es) && x > bound
  {
    CanonicalSplit(es, i);
    forall x | x in Covered(es[..i]) ensures x > bound { BoundsOf(es[..i], x); }
    forall x | x in Covered(es[i..]) ensures x <= bound { BoundsOf(es[i..], x); }
  }

  /** Trimming the lowest entry so that it starts above the bound. */
  lemma TrimLast(es: seq<Entry>, bound: int)
    requires Canonical(es) && es != []
    requires Low(es[|es|-1]) <= bound < es[|es|-1].pktNum
    ensures var n := |es| - 1;
            var r := es[n := es[n].(len := es[n].pktNum - bound)];
            Canonical(r) && Covered(r) == iset x | x in Covered(es) && x > bound
  {
    var n := |es| - 1;
    var e' := es[n].(len := es[n].pktNum - bound);
    Around(es, n);
    var l := es[..n];
    assert es[n+1..] == [] && es[n := e'] == l + [e'] + [];
    CoveredAround(l, e', []);
    assert n > 0 ==> Apart(es[n-1], es[n]);
    CanonicalAround(l, e', []);
    forall x | x in Covered(l) ensures x > bound { BoundsOf(l, x); }
  }

  // ----- the list is determined by the set

  /** A canonical list is the only canonical list of its set: the tracker's state is a normal
      form, and a contract that fixes the covered set fixes every pktNum and len. */
  lemma {:induction false} CanonicalUnique(a: seq<Entry>, b: seq<Entry>)
    requires Canonical(a) && Canonical(b) && Covered(a) == Covered(b)
    ensures |a| == |b|
    ensures forall i :: 0 <= i < |a| ==> a[i].pktNum == b[i].pktNum && a[i].len == b[i].len
    decreases |a|
  {
    NonEmptyTogether(a, b);
    NonEmptyTogether(b, a);
    if a != [] {
      SameTop(a, b);
      SameTop(b, a);
      TailSet(a);
      TailSet(b);
      CanonicalUnique(a[1..], b[1..]);
      forall i | 0 <= i < |a| ensures a[i].pktNum == b[i].pktNum && a[i].len == b[i].len {
        if i > 0 { assert a[i] == a[1..][i-1] && b[i] == b[1..][i-1]; }
      }
    }
  }

  lemma NonEmptyTogether(a: seq<Entry>, b: seq<Entry>)
    requires Canonical(a) && Covered(a) <= Covered(b)
    ensures a != [] ==> b != []
  {
    if a != [] {
      MemberInterval(a, 0);
      assert Between(Low(a[0]), a[0].pktNum, a[0].pktNum);
      assert a[0].pktNum in Covered(b);
    }
  }

  /** The top entry of b reaches at least as high, and from the same top at least as low. */
  lemma SameTop(a: seq<Entry>, b: seq<Entry>)
    requires Canonical(a) && Canonical(b) && Covered(a) <= Covered(b) && a != [] && b != []
    ensures a[0].pktNum <= b[0].pktNum
    ensures a[0].pktNum == b[0].pktNum ==> Low(b[0]) <= Low(a[0])
  {
    MemberInterval(a, 0);
    assert Between(Low(a[0]), a[0].pktNum, a[0].pktNum);
    BoundsOf(b, a[0].pktNum);
    TailSet(b);
    var x := Low(b[0]) - 1;
    assert x !in Covered(b[1..]);
    assert x !in Covered(b);
    assert !Between(Low(a[0]), x, a[0].pktNum);
  }

  lemma TailSet(a: seq<Entry>)
    requires Canonical(a) && a != []
    ensures Canonical(a[1..])
    ensures Covered(a[1..]) == iset x | x in Covered(a) && x < Low(a[0])
    ensures forall x :: x in Covered(a[1..]) ==> x + 1 < Low(a[0])
  {
    CanonicalSplit(a, 1);
    assert a[..1] == [a[0]];
    CoveredOne(a[0]);
    forall x | x in Covered(a[1..]) ensures x + 1 < Low(a[0]) {
      BoundsOf(a[1..], x);
      assert Apart(a[0], a[1]);
    }
  }

  // ----- the ACK frame of section 19.3 of RFC 9000

  datatype AckRange = AckRange(gap: nat, len: nat)

  datatype AckFrame = AckFrame(
    ecn: bool, ect0: nat, ect1: nat, ce: nat,
    largestAck: int, firstAckRange: nat,
    ackDelayUnscaled: uint64, ackDelay: uint64,
    ranges: seq<AckRange>)

  /** The numbers the ranges acknowledge below a range whose smallest number is `smallest`:
      the next range ends at smallest - gap - 2 (section 19.3.1 of RFC 9000). */
  ghost function DecodeRanges(smallest: int, rs: seq<AckRange>): iset<int>
    decreases |rs|
  {
    if rs == [] then iset{}
    else
      var hi := smallest - rs[0].gap - 2;
      var lo := hi - rs[0].len;
      Interval(lo, hi) + DecodeRanges(lo, rs[1..])
  }

  ghost function Decode(fr: AckFrame): iset<int> {
    var lo := fr.largestAck - fr.firstAckRange;
    Interval(lo, fr.largestAck) + DecodeRanges(lo, fr.ranges)
  }

  /** The smallest number acknowledged after all the ranges. */
  ghost function SmallestAfter(smallest: int, rs: seq<AckRange>): int
    decreases |rs|
  {
    if rs == [] then smallest
    else SmallestAfter(smallest - rs[0].gap - 2 - rs[0].len, rs[1..])
  }

  lemma {:induction false} DecodeAppend(smallest: int, rs: seq<AckRange>, r: AckRange)
    ensures var hi := SmallestAfter(smallest, rs) - r.gap - 2;
            && DecodeRanges(smallest, rs + [r]) == DecodeRanges(smallest, rs) + Interval(hi - r.len, hi)
            && SmallestAfter(smallest, rs + [r]) == hi - r.len
    decreases |rs|
  {
    if rs == [] {
      assert rs + [r] == [r];
      assert [r][1..] == [];
    } else {
      assert (rs + [r])[1..] == rs[1..] + [r];
      DecodeAppend(smallest - rs[0].gap - 2 - rs[0].len, rs[1..], r);
    }
  }

  lemma {:induction false} RangesLieBelow(smallest: int, rs: seq<AckRange>, x: int)
    requires x in DecodeRanges(smallest, rs)
    ensures x + 2 <= smallest
    decreases |rs|
  {
    var hi := smallest - rs[0].gap - 2;
    if x !in Interval(hi - rs[0].len, hi) {
      RangesLieBelow(hi - rs[0].len, rs[1..], x);
    }
  }
}
