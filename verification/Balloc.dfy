/** The bump allocator over 16-byte aligned memory blocks. */
module Balloc {
  import opened Common

  const HD: nat := 8

  /** A region handed out, with the block it was cut from. */
  datatype Region = Region(block: Addr, addr: Addr, len: nat)

  /** Rounding up to a multiple of sixteen, (n + 0xF) & ~0xF. */
  function Up16(n: nat): (r: nat)
    ensures n <= r < n + 16 && r % 16 == 0
  {
    (n + 15) / 16 * 16
  }

  predicate Disjoint(a: Addr, alen: nat, b: Addr, blen: nat) {
    a + alen <= b || b + blen <= a
  }

  /** Inside the block, after its header. */
  predicate Inside(r: Region, blklen: nat) {
    r.block + HD <= r.addr && r.addr + r.len <= r.block + HD + 8 + blklen && r.addr % 16 == 0
  }

  ghost predicate PairwiseDisjoint(rs: seq<Region>) {
    forall i, j :: 0 <= i < j < |rs| ==> Disjoint(rs[i].addr, rs[i].len, rs[j].addr, rs[j].len)
  }

  ghost predicate BlocksApart(bs: seq<Addr>, size: nat) {
    forall i, j :: 0 <= i < j < |bs| ==> Disjoint(bs[i], size, bs[j], size)
  }

  lemma Up16Sum(base: nat, n: nat)
    requires base % 16 == 0
    ensures (base + Up16(n)) % 16 == 0
  {
  }

  lemma BlocksCons(p: Addr, bs: seq<Addr>, size: nat)
    requires BlocksApart(bs, size) && forall b :: b in bs ==> Disjoint(p, size, b, size)
    ensures BlocksApart([p] + bs, size)
    ensures size > 0 ==> p !in bs
  {
  }

  /** The data area of an 8-byte aligned block starts at most eight bytes after its header. */
  lemma DataArea(p: Addr)
    requires p % 8 == 0
    ensures p + HD <= Up16(p + HD) <= p + HD + 8
  {
  }

  class Allocator {
    const blklen: nat
    /** The address of the empty string the buffer points to while there is no block. */
    const empty: Addr
    /** The block list, newest first. */
    var head: seq<Addr>
    var last: Addr
    var end: Addr
    /** The blocks malloc'd and not freed, and the regions handed out since the last clear. */
    ghost var live: set<Addr>
    ghost var regions: seq<Region>

    ghost function BlockSize(): nat { HD + 8 + blklen }

    ghost predicate Valid()
      reads this
    {
      && blklen % 16 == 0
      && BlocksApart(head, BlockSize())
      && live == (set b | b in head)
      && (if head == [] then last == end == empty && regions == []
          else
            && last <= end == Up16(head[0] + HD) + blklen && last % 16 == 0
            && head[0] + HD <= last && end <= head[0] + BlockSize())
      && (forall i :: 0 <= i < |regions| ==> Owned(regions[i]))
      && PairwiseDisjoint(regions)
    }

    /** In a live block, and below the bump pointer if the block is the current one. */
    ghost predicate Owned(r: Region)
      reads `head, `last
    {
      && r.block in head && Inside(r, blklen)
      && (r.block == head[0] ==> r.addr + r.len <= last)
    }

    constructor (blklen: nat, empty: Addr)
      requires blklen % 16 == 0
      ensures Valid() && this.blklen == blklen && this.empty == empty && head == [] && regions == []
    {
      this.blklen, this.empty := blklen, empty;
      head, last, end := [], empty, empty;
      live, regions := {}, [];
    }

    /** ngtcp2_balloc_get.  `p` is what malloc returns if it is called, or NULL; the conditions on
        it are malloc's contract.  Asking for nothing before there is a block returns the empty
        string's address, which must be aligned for the source's assertion to hold. */
    method Get(n: nat, p: Addr) returns (rv: int, buf: Addr)
      requires Valid() && n <= blklen
      requires n == 0 && head == [] ==> empty % 16 == 0
      requires p != NULL ==> p % 8 == 0 && forall b :: b in head ==> Disjoint(p, BlockSize(), b, BlockSize())
      modifies this
      ensures Valid()
      ensures rv == if old(end - last) < n && p == NULL then ERR_NOMEM else 0
      ensures rv != 0 ==> unchanged(this)
      ensures head == if old(end - last) < n && p != NULL then [p] + old(head) else old(head)
      ensures rv == 0 && head != [] ==> regions == old(regions) + [Region(head[0], buf, n)]
      // the next region starts where this one ends, rounded up to sixteen
      ensures rv == 0 ==> last % 16 == 0 && buf + n <= last < buf + n + 16
      ensures rv == 0 ==> if head == old(head) then buf == old(last) && end == old(end) else end == buf + blklen
      ensures rv == 0 && head == [] ==> n == 0 && buf == empty && unchanged(this)
    {
      if end - last < n {
        if p == NULL {
          return ERR_NOMEM, NULL;
        }
        NewBlock(p);
      }
      assert last % 16 == 0;
      buf := Bump(n);
      return 0, buf;
    }

    /** The end of ngtcp2_balloc_get. */
    method Bump(n: nat) returns (buf: Addr)
      requires Valid() && n <= end - last && last % 16 == 0
      modifies `last, `regions
      ensures Valid() && buf == old(last) && buf + n <= last < buf + n + 16 && last % 16 == 0
      ensures head != [] ==> regions == old(regions) + [Region(head[0], buf, n)]
      ensures head == [] ==> n == 0 && unchanged(this)
    {
      buf := last;
      Up16Sum(last, n);
      if head != [] {
        ghost var r := Region(head[0], buf, n);
        Fresh(r);
        RoomFor(n);
        regions := regions + [r];
      }
      last := last + Up16(n);
    }

    /** A new block becomes the current one; its data area starts at a multiple of sixteen. */
    method NewBlock(p: Addr)
      requires Valid() && p != NULL && p % 8 == 0
      requires forall b :: b in head ==> Disjoint(p, BlockSize(), b, BlockSize())
      modifies this
      ensures Valid() && head == [p] + old(head) && regions == old(regions) && end - last == blklen
    {
      DataArea(p);
      BlocksCons(p, head, BlockSize());
      ghost var was := head;
      assert forall i :: 0 <= i < |regions| ==> Owned(regions[i]) && regions[i].block != p;
      head, live := [p] + head, live + {p};
      last := Up16(p + HD);
      end := last + blklen;
      assert forall b :: b in head <==> b == p || b in was;
    }

    /** The next region is disjoint from all earlier ones. */
    lemma Fresh(r: Region)
      requires Valid() && head != [] && r.block == head[0] && r.addr == last && r.addr + r.len <= end
      ensures PairwiseDisjoint(regions + [r])
    {
      forall i | 0 <= i < |regions| ensures Disjoint(regions[i].addr, regions[i].len, r.addr, r.len) {
        var q := regions[i];
        assert Owned(q);
        if q.block != head[0] {
          var k :| 0 < k < |head| && head[k] == q.block;
          assert Disjoint(head[0], BlockSize(), head[k], BlockSize());
        }
      }
    }

    /** The rounded length still fits, because both bump pointer and end are multiples of sixteen. */
    lemma RoomFor(n: nat)
      requires Valid() && head != [] && n <= end - last
      ensures Up16(n) <= end - last
    {
      assert (end - last) % 16 == 0;
    }

    /** ngtcp2_balloc_clear: every block is freed, each exactly once. */
    method Clear()
      requires Valid()
      modifies this
      ensures Valid() && head == [] && live == {} && regions == []
    {
      var rest := head;
      while rest != []
        invariant live == (set b | b in rest) && BlocksApart(rest, BlockSize())
        invariant blklen % 16 == 0
      {
        var p := rest[0];
        assert p in live;
        forall k | 0 < k < |rest| ensures rest[k] != p { assert Disjoint(rest[0], BlockSize(), rest[k], BlockSize()); }
        assert rest == [p] + rest[1..];
        live, rest := live - {p}, rest[1..];
      }
      head, last, end, regions := [], empty, empty, [];
    }
  }
}
