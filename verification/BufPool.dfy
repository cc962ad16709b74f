/** Reference-counted buffer handles and the default buffer allocator.

    Memory is modelled by addresses: `owners` holds the live blocks of the default allocator,
    keyed by their address, and `bufs` the handles, keyed by where they are stored.  The ghost
    map `overwritten` counts, per block, the handles that were overwritten without a release. */
module BufPool {
  import opened Arith
  import opened Common

  const ERR_BUF_CONTRACT: int := -503
  const MAX_ROLE: nat := 8
  const HEADER: nat := 16

  /** A handle.  The retain and release callbacks are set exactly when the owner is. */
  datatype Buf = Buf(begin: Addr, end: Addr, pos: Addr, last: Addr, role: nat, owner: Addr)

  const ZERO: Buf := Buf(NULL, NULL, NULL, NULL, 0, NULL)

  datatype Owner = Owner(refcount: nat, len: nat)

  datatype AllocInfo = AllocInfo(role: nat, size: uint64, headroom: uint64, tailroom: uint64, align: uint64)

  predicate BadRange(b: Buf) {
    || b.begin == NULL || b.end == NULL || b.pos == NULL || b.last == NULL
    || b.begin > b.pos || b.pos > b.last || b.last > b.end
  }

  predicate IsPow2(n: nat) {
    n == 1 || (n > 0 && n % 2 == 0 && IsPow2(n / 2))
  }

  /** validate_info. */
  predicate InfoOk(info: AllocInfo) {
    && info.role <= MAX_ROLE && IsPow2(info.align)
    && info.headroom + info.size + info.tailroom < TWO64
  }

  /** What validate_info accepts: a known role, a power of two, and sizes whose sum fits. */
  lemma {:induction false} InfoOkMeaning(info: AllocInfo)
    ensures InfoOk(info) <==>
              && info.role <= 8 && (exists k: nat :: info.align == Pow2(k))
              && info.headroom + info.size + info.tailroom <= 0xFFFF_FFFF_FFFF_FFFF
  {
    PowersOfTwo(info.align);
  }

  lemma PowersOfTwo(n: nat)
    ensures IsPow2(n) <==> exists k: nat :: n == Pow2(k)
  {
    if IsPow2(n) { assert n == Pow2(Log2(n)); }
    if k: nat :| n == Pow2(k) { PowIsPow2(k); }
  }

  lemma {:induction false} PowIsPow2(k: nat)
    ensures IsPow2(Pow2(k))
  {
    if k > 0 { PowIsPow2(k - 1); }
  }

  ghost function Log2(n: nat): (k: nat)
    requires IsPow2(n)
    ensures Pow2(k) == n
  {
    if n == 1 then 0 else 1 + Log2(n / 2)
  }

  /** The block is large enough wherever malloc places it, and for some place nothing is wasted. */
  lemma AllocLenFits(info: AllocInfo, p: Addr)
    requires info.align > 0
    ensures AlignUp(p + HEADER, info.align) + info.headroom + info.size + info.tailroom <= p + AllocLen(info)
    ensures (p + HEADER) % info.align == 1 % info.align ==>
              AlignUp(p + HEADER, info.align) + info.headroom + info.size + info.tailroom == p + AllocLen(info)
  {
    if (p + HEADER) % info.align == 1 % info.align { AlignUpWorst(p + HEADER, info.align); }
  }

  /** Two multiples less than a apart are the same. */
  lemma SameMultiple(k: nat, m: nat, a: nat)
    requires k * a < m * a + a && m * a < k * a + a
    ensures k == m
  {
    assert (m + 1) * a == m * a + a && (k + 1) * a == k * a + a;
    if k > m { MulMono(m + 1, k, a, a); }
    if k < m { MulMono(k + 1, m, a, a); }
  }

  lemma DivRem(n: nat, a: nat)
    requires a > 0
    ensures n / a >= 0 && n == n / a * a + n % a
  {
  }

  lemma AlignUpWorst(n: nat, a: nat)
    requires a > 0 && n % a == 1 % a
    ensures AlignUp(n, a) == n + a - 1
  {
    if a > 1 {
      var r := AlignUp(n, a);
      DivRem(n, a);
      DivRem(r, a);
      Worst(n, r, a, n / a, r / a);
    }
  }

  lemma Worst(n: nat, r: nat, a: nat, q: nat, k: nat)
    requires n == q * a + 1 && r == k * a && n <= r < n + a
    ensures r == n + a - 1
  {
    assert (q + 1) * a == q * a + a;
    SameMultiple(k, q + 1, a);
  }

  /** The size of the block the default allocator asks for. */
  function AllocLen(info: AllocInfo): int {
    HEADER + info.headroom + info.size + info.tailroom + info.align - 1
  }

  /** align_ptr: the lowest multiple of a that is not below n. */
  function AlignUp(n: nat, a: nat): (r: nat)
    requires a > 0
    ensures n <= r < n + a && r % a == 0
  {
    Multiple((n + a - 1) / a, a);
    (n + a - 1) / a * a
  }

  lemma Multiple(q: nat, a: nat)
    requires a > 0
    ensures q * a % a == 0
  {
    if q > 0 {
      Multiple(q - 1, a);
      assert q * a == (q - 1) * a + a;
      ModStep((q - 1) * a, a);
    }
  }

  lemma ModStep(n: nat, a: nat)
    requires a > 0
    ensures (n + a) % a == n % a
  {
    var q := n / a;
    assert n + a == (q + 1) * a + n % a;
    DivUnique(n + a, a, q + 1, n % a);
  }

  lemma Zero(d: int, a: int, x: int)
    requires d * a == x && -a < x < a
    ensures x == 0
  {
    assert d >= 1 ==> d * a >= a;
    assert d <= -1 ==> d * a <= -a;
  }

  lemma DivUnique(n: nat, a: nat, q: nat, r: nat)
    requires a > 0 && r < a && n == q * a + r
    ensures n % a == r
  {
    var d, r' := q - n / a, n % a;
    assert n == n / a * a + r';
    assert d * a == r' - r;
    Zero(d, a, r' - r);
  }

  /** Adding a multiple of a does not change the remainder. */
  lemma AlignedSum(base: nat, n: nat, a: nat)
    requires a > 0 && base % a == 0
    ensures (base + n) % a == n % a
  {
    var q := base / a;
    assert base + n == (q + n / a) * a + n % a;
    DivUnique(base + n, a, q + n / a, n % a);
  }

  // ----- counting handles

  ghost function Naming(bufs: map<nat, Buf>, o: Addr): set<nat> {
    set h | h in bufs && bufs[h].owner == o
  }

  ghost function Forgotten(over: map<Addr, nat>, o: Addr): nat {
    if o in over then over[o] else 0
  }

  /** One more overwritten handle of o, if it named a block at all. */
  ghost function Forget(over: map<Addr, nat>, o: Addr): map<Addr, nat> {
    if o == NULL then over else over[o := Forgotten(over, o) + 1]
  }

  /** The handles that were ever made to name o and not released: live or overwritten. */
  ghost function Total(bufs: map<nat, Buf>, over: map<Addr, nat>, o: Addr): nat {
    |Naming(bufs, o)| + Forgotten(over, o)
  }

  lemma CountUpdate(bufs: map<nat, Buf>, h: nat, b: Buf, o: Addr)
    requires h in bufs
    ensures |Naming(bufs[h := b], o)| ==
            |Naming(bufs, o)| - (if bufs[h].owner == o then 1 else 0) + (if b.owner == o then 1 else 0)
  {
    var rest := Naming(bufs, o) - {h};
    assert Naming(bufs[h := b], o) == if b.owner == o then rest + {h} else rest;
    assert Naming(bufs, o) == if bufs[h].owner == o then rest + {h} else rest;
  }

  /** Overwriting a handle adds to the total of the new owner and to no other. */
  lemma TotalStore(bufs: map<nat, Buf>, over: map<Addr, nat>, h: nat, b: Buf)
    requires h in bufs
    ensures forall o :: o != NULL ==>
              Total(bufs[h := b], Forget(over, bufs[h].owner), o) ==
              Total(bufs, over, o) + if b.owner == o then 1 else 0
  {
    forall o | o != NULL
      ensures Total(bufs[h := b], Forget(over, bufs[h].owner), o) ==
              Total(bufs, over, o) + if b.owner == o then 1 else 0
    {
      CountUpdate(bufs, h, b, o);
    }
  }

  /** Zeroing a handle that is given up properly takes one off its owner's total. */
  lemma TotalDrop(bufs: map<nat, Buf>, over: map<Addr, nat>, h: nat)
    requires h in bufs
    ensures forall o :: o != NULL ==>
              Total(bufs[h := ZERO], over, o) == Total(bufs, over, o) - if bufs[h].owner == o then 1 else 0
  {
    forall o | o != NULL
      ensures Total(bufs[h := ZERO], over, o) == Total(bufs, over, o) - if bufs[h].owner == o then 1 else 0
    {
      CountUpdate(bufs, h, ZERO, o);
    }
  }

  lemma NoneNaming(bufs: map<nat, Buf>, over: map<Addr, nat>, o: Addr)
    requires Total(bufs, over, o) == 0
    ensures forall h :: h in bufs ==> bufs[h].owner != o
    ensures Forgotten(over, o) == 0
  {
    assert forall h :: h in bufs && bufs[h].owner == o ==> h in Naming(bufs, o);
  }

  /** Every reference count is its block's total, and only live blocks have one. */
  ghost predicate Counted(bufs: map<nat, Buf>, owners: map<Addr, Owner>, over: map<Addr, nat>) {
    && NULL !in owners
    && (forall o :: o in owners ==> 0 < owners[o].refcount == Total(bufs, over, o))
    && (forall o :: o !in owners && o != NULL ==> Total(bufs, over, o) == 0)
  }

  /** The handle's range lies inside its live block, behind the block's header. */
  ghost predicate Placed(b: Buf, owners: map<Addr, Owner>) {
    b.owner != NULL ==>
      && b.owner in owners && b.role <= MAX_ROLE && !BadRange(b)
      && b.owner + HEADER <= b.begin && b.end <= b.owner + owners[b.owner].len
  }

  ghost predicate AllPlaced(bufs: map<nat, Buf>, owners: map<Addr, Owner>) {
    forall h :: h in bufs ==> Placed(bufs[h], owners)
  }

  ghost predicate Clear(owners: map<Addr, Owner>, p: Addr, len: nat) {
    forall o :: o in owners ==> o + owners[o].len <= p || p + len <= o
  }

  ghost predicate Separate(owners: map<Addr, Owner>, o: Addr, p: Addr) {
    o in owners && p in owners && o != p ==> o + owners[o].len <= p || p + owners[p].len <= o
  }

  ghost predicate Disjoint(owners: map<Addr, Owner>) {
    forall o, p {:trigger Separate(owners, o, p)} :: Separate(owners, o, p)
  }

  lemma DisjointSub(owners: map<Addr, Owner>, owners': map<Addr, Owner>)
    requires Disjoint(owners)
    requires forall o :: o in owners' ==> o in owners && owners'[o].len == owners[o].len
    ensures Disjoint(owners')
  {
    forall o, p ensures Separate(owners', o, p) { assert Separate(owners, o, p); }
  }

  function Retained(owners: map<Addr, Owner>, o: Addr): map<Addr, Owner>
    requires o != NULL ==> o in owners
  {
    if o == NULL then owners else owners[o := owners[o].(refcount := owners[o].refcount + 1)]
  }

  /** What releasing one reference to o leaves of the live blocks. */
  function Released(owners: map<Addr, Owner>, o: Addr): map<Addr, Owner>
    requires o != NULL ==> o in owners && owners[o].refcount > 0
  {
    if o == NULL then owners
    else if owners[o].refcount == 1 then owners - {o}
    else owners[o := owners[o].(refcount := owners[o].refcount - 1)]
  }

  /** Allocating a block and releasing its only reference leaves the blocks there were. */
  lemma ReleasedNew(owners: map<Addr, Owner>, p: Addr, len: nat)
    requires p != NULL && p !in owners
    ensures Released(owners[p := Owner(1, len)], p) == owners
  {
  }

  // ----- what each operation keeps, on values

  lemma RetainKeeps(bufs: map<nat, Buf>, owners: map<Addr, Owner>, over: map<Addr, nat>, h: nat, b: Buf)
    requires Counted(bufs, owners, over) && h in bufs && (b.owner != NULL ==> b.owner in owners)
    ensures Counted(bufs[h := b], Retained(owners, b.owner), Forget(over, bufs[h].owner))
  {
    TotalStore(bufs, over, h, b);
  }

  lemma PlacedKeeps(bufs: map<nat, Buf>, owners: map<Addr, Owner>, h: nat, b: Buf)
    requires AllPlaced(bufs, owners) && Disjoint(owners) && h in bufs && Placed(b, owners)
    ensures AllPlaced(bufs[h := b], Retained(owners, b.owner)) && Disjoint(Retained(owners, b.owner))
  {
    DisjointSub(owners, Retained(owners, b.owner));
  }

  lemma ReleaseCounts(bufs: map<nat, Buf>, owners: map<Addr, Owner>, over: map<Addr, nat>, h: nat)
    requires Counted(bufs, owners, over) && h in bufs && (bufs[h].owner != NULL ==> bufs[h].owner in owners)
    ensures Counted(bufs[h := ZERO], Released(owners, bufs[h].owner), over)
  {
    TotalDrop(bufs, over, h);
  }

  lemma ReleasePlaces(bufs: map<nat, Buf>, owners: map<Addr, Owner>, over: map<Addr, nat>, h: nat)
    requires Counted(bufs, owners, over) && AllPlaced(bufs, owners) && h in bufs
    requires bufs[h].owner != NULL ==> bufs[h].owner in owners
    ensures AllPlaced(bufs[h := ZERO], Released(owners, bufs[h].owner))
  {
    var o := bufs[h].owner;
    var bufs', owners' := bufs[h := ZERO], Released(owners, o);
    if o != NULL && owners[o].refcount == 1 {
      TotalDrop(bufs, over, h);
      NoneNaming(bufs', over, o);
    }
    forall k | k in bufs' ensures Placed(bufs'[k], owners') {
      if k != h { assert Placed(bufs[k], owners); }
    }
  }

  lemma ReleaseKeeps(bufs: map<nat, Buf>, owners: map<Addr, Owner>, over: map<Addr, nat>, h: nat)
    requires Counted(bufs, owners, over) && AllPlaced(bufs, owners) && Disjoint(owners) && h in bufs
    ensures var o := bufs[h].owner;
            && (o != NULL ==> o in owners)
            && Counted(bufs[h := ZERO], Released(owners, o), over)
            && AllPlaced(bufs[h := ZERO], Released(owners, o)) && Disjoint(Released(owners, o))
  {
    assert Placed(bufs[h], owners);
    ReleaseCounts(bufs, owners, over, h);
    ReleasePlaces(bufs, owners, over, h);
    DisjointSub(owners, Released(owners, bufs[h].owner));
  }

  lemma MoveKeeps(bufs: map<nat, Buf>, owners: map<Addr, Owner>, over: map<Addr, nat>, dest: nat, src: nat)
    requires Counted(bufs, owners, over) && AllPlaced(bufs, owners) && dest in bufs && src in bufs
    ensures var bufs' := bufs[dest := bufs[src]][src := ZERO];
            Counted(bufs', owners, Forget(over, bufs[dest].owner)) && AllPlaced(bufs', owners)
  {
    TotalStore(bufs, over, dest, bufs[src]);
    TotalDrop(bufs[dest := bufs[src]], Forget(over, bufs[dest].owner), src);
  }

  lemma AllocKeeps(bufs: map<nat, Buf>, owners: map<Addr, Owner>, over: map<Addr, nat>, h: nat, b: Buf, len: nat)
    requires Counted(bufs, owners, over) && AllPlaced(bufs, owners) && Disjoint(owners) && h in bufs
    requires b.owner != NULL && b.owner !in owners && Clear(owners, b.owner, len)
    requires Placed(b, owners[b.owner := Owner(1, len)])
    ensures var owners' := owners[b.owner := Owner(1, len)];
            && Counted(bufs[h := b], owners', Forget(over, bufs[h].owner))
            && AllPlaced(bufs[h := b], owners') && Disjoint(owners')
  {
    TotalStore(bufs, over, h, b);
    var owners' := owners[b.owner := Owner(1, len)];
    forall o, p ensures Separate(owners', o, p) { assert Separate(owners, o, p); }
  }

  class Memory {
    var bufs: map<nat, Buf>
    var owners: map<Addr, Owner>
    ghost var overwritten: map<Addr, nat>

    /** Every reference count is the number of handles naming the block, live or overwritten;
        no handle dangles; blocks are disjoint. */
    ghost predicate Valid()
      reads this
    {
      Counted(bufs, owners, overwritten) && AllPlaced(bufs, owners) && Disjoint(owners)
    }

    /** The handles start zeroed. */
    constructor (handles: set<nat>)
      ensures Valid() && bufs.Keys == handles && owners == map[] && overwritten == map[]
    {
      bufs, owners := map h | h in handles :: ZERO, map[];
      overwritten := map[];
      new;
      assert forall o :: o != NULL ==> Naming(bufs, o) == {};
    }

    /** ngtcp2_buf_alloc with the default allocator.  `p` is what malloc returns, or NULL; the
        condition on it is malloc's contract. */
    method Alloc(h: nat, info: AllocInfo, p: Addr) returns (rv: int)
      requires Valid() && h in bufs
      requires p != NULL ==> p !in owners && Clear(owners, p, AllocLen(info))
      modifies this
      ensures Valid()
      // the headroom must be a multiple of the alignment
      ensures rv == if !InfoOk(info) || AllocLen(info) >= TWO64 then ERR_BUF_CONTRACT
                    else if p == NULL then ERR_NOMEM
                    else if info.headroom % info.align != 0 then ERR_BUF_CONTRACT
                    else 0
      ensures rv == 0 ==>
                && owners == old(owners)[p := Owner(1, AllocLen(info))]
                && overwritten == Forget(old(overwritten), old(bufs)[h].owner)
                && h in bufs && bufs == old(bufs)[h := bufs[h]]
                && bufs[h].owner == p && bufs[h].role == info.role && bufs[h].last == bufs[h].pos
                && bufs[h].pos % info.align == 0
                && bufs[h].pos - bufs[h].begin == info.headroom
                && bufs[h].end - bufs[h].pos == info.size + info.tailroom
      // a block that was allocated in vain is freed again
      ensures rv != 0 ==> owners == old(owners) && (bufs == old(bufs) || bufs == old(bufs)[h := ZERO])
    {
      if !InfoOk(info) || AllocLen(info) >= TWO64 {
        return ERR_BUF_CONTRACT;
      }
      if p == NULL {
        return ERR_NOMEM;
      }
      DefaultAlloc(h, info, p);
      var b := bufs[h];
      assert !BadRange(b) && b.end - b.pos == info.size + info.tailroom;
      if info.align > 1 && b.pos % info.align != 0 {
        ReleasedNew(old(owners), p, AllocLen(info));
        Release(h);
        return ERR_BUF_CONTRACT;
      }
      return 0;
    }

    /** default_alloc, once its sizes are known to fit and malloc has returned p. */
    method DefaultAlloc(h: nat, info: AllocInfo, p: Addr)
      requires Valid() && h in bufs && InfoOk(info)
      requires p != NULL && p !in owners && Clear(owners, p, AllocLen(info))
      modifies this
      ensures Valid() && owners == old(owners)[p := Owner(1, AllocLen(info))]
      ensures h in bufs && bufs == old(bufs)[h := bufs[h]]
      ensures overwritten == Forget(old(overwritten), old(bufs)[h].owner)
      ensures var b := bufs[h];
              && b.owner == p && b.role == info.role && !BadRange(b)
              && b.pos % info.align == info.headroom % info.align
              && b.pos == b.last == b.begin + info.headroom && b.end == b.pos + info.size + info.tailroom
    {
      var begin := AlignUp(p + HEADER, info.align);
      var total := info.headroom + info.size + info.tailroom;
      var b := Buf(begin, begin + total, begin + info.headroom, begin + info.headroom, info.role, p);
      AlignedSum(begin, info.headroom, info.align);
      AllocKeeps(bufs, owners, overwritten, h, b, AllocLen(info));
      overwritten := Forget(overwritten, bufs[h].owner);
      owners, bufs := owners[p := Owner(1, AllocLen(info))], bufs[h := b];
    }

    /** ngtcp2_buf_release_owner with the default owner's release: the block is freed exactly
        when this was its last handle and none was overwritten. */
    method Release(h: nat)
      requires Valid() && h in bufs
      modifies `bufs, `owners
      ensures Valid() && bufs == old(bufs)[h := ZERO]
      ensures var o := old(bufs)[h].owner;
              && (o != NULL ==> o in old(owners) && old(owners)[o].refcount > 0)
              && owners == Released(old(owners), o)
              && (o != NULL ==> (o !in owners <==> Naming(old(bufs), o) == {h} && Forgotten(overwritten, o) == 0))
    {
      ReleaseKeeps(bufs, owners, overwritten, h);
      LastHandle(bufs, overwritten, h);
      var o := bufs[h].owner;
      if o != NULL {
        assert owners[o].refcount > 0;
        owners := Released(owners, o);
      }
      bufs := bufs[h := ZERO];
    }

    static lemma LastHandle(bufs: map<nat, Buf>, over: map<Addr, nat>, h: nat)
      requires h in bufs
      ensures var o := bufs[h].owner;
              Total(bufs, over, o) == 1 <==> Naming(bufs, o) == {h} && Forgotten(over, o) == 0
    {
      var o := bufs[h].owner;
      assert h in Naming(bufs, o);
      assert |Naming(bufs, o) - {h}| == |Naming(bufs, o)| - 1;
      if |Naming(bufs, o)| == 1 { assert Naming(bufs, o) - {h} == {}; }
    }

    /** ngtcp2_buf_slice. */
    method Slice(dest: nat, src: nat, off: nat, len: nat, role: nat) returns (rv: int)
      requires Valid() && dest in bufs && src in bufs
      modifies this
      ensures Valid()
      ensures rv == 0 || rv == ERR_BUF_CONTRACT
      ensures var b := old(bufs)[src];
              rv == 0 <==>
                && NULL < b.begin <= b.pos <= b.last <= b.end
                && off + len <= b.last - b.pos && role <= 8
      ensures rv != 0 ==> unchanged(this)
      ensures rv == 0 ==>
                var b := old(bufs)[src];
                && (b.owner != NULL ==> b.owner in old(owners))
                && bufs == old(bufs)[dest := b.(pos := b.pos + off, last := b.pos + off + len, role := role)]
                && owners == Retained(old(owners), b.owner)
                && overwritten == Forget(old(overwritten), old(bufs)[dest].owner)
    {
      var b := bufs[src];
      if BadRange(b) || off > b.last - b.pos || len > b.last - b.pos - off || role > MAX_ROLE {
        return ERR_BUF_CONTRACT;
      }
      var buf := b.(pos := b.pos + off, last := b.pos + off + len, role := role);
      assert Placed(b, owners);
      RetainKeeps(bufs, owners, overwritten, dest, buf);
      PlacedKeeps(bufs, owners, dest, buf);
      owners, overwritten := Retained(owners, b.owner), Forget(overwritten, bufs[dest].owner);
      bufs := bufs[dest := buf];
      return 0;
    }

    /** ngtcp2_buf_move; the two handles may be the same one. */
    method Move(dest: nat, src: nat)
      requires Valid() && dest in bufs && src in bufs
      modifies `bufs, `overwritten
      ensures Valid()
      ensures bufs == old(bufs)[dest := old(bufs)[src]][src := ZERO]
      ensures overwritten == Forget(old(overwritten), old(bufs)[dest].owner)
    {
      MoveKeeps(bufs, owners, overwritten, dest, src);
      overwritten := Forget(overwritten, bufs[dest].owner);
      bufs := bufs[dest := bufs[src]];
      bufs := bufs[src := ZERO];
    }
  }

  /** A valid request of 100 bytes, aligned to 8 and with one byte of headroom, is refused wherever
      malloc places the block; with eight bytes of headroom it is granted. */
  method HeadroomRefused(p: Addr) returns (refused: int, granted: int)
    requires p != NULL
    ensures refused == ERR_BUF_CONTRACT && granted == 0
  {
    var mem := new Memory({0});
    assert IsPow2(8) by { assert IsPow2(1) && IsPow2(2) && IsPow2(4); }
    refused := mem.Alloc(0, AllocInfo(0, 100, 1, 0, 8), p);
    granted := mem.Alloc(0, AllocInfo(0, 100, 8, 0, 8), p);
  }
}
