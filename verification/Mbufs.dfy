// Memory buffers, the pools that own them, and chains of buffers.
module Mbufs {
  import opened ByteSeqs
  import opened Bufs
  import Counting

  /** A pool of equally sized buffers: os_mbuf_pool together with its os_mempool. */
  class Pool {
    /** omp_databuf_len */
    const databufLen: nat
    /** The free list, first block first. */
    var free: seq<Mbuf>
    /** mp_num_free */
    var numFree: nat
    /** mp_min_free */
    var minFree: nat
    /** Every value mp_num_free has had since the pool was set up. */
    ghost var seen: seq<nat>

    /** mem_init_mbuf_pool: n new blocks, all free. */
    constructor (databufLen: nat, n: nat)
      requires 0 < databufLen < 0x1_0000 && n < 0x1_0000
      ensures Ok() && this.databufLen == databufLen && numFree == minFree == n && seen == [n]
      ensures forall i | 0 <= i < n :: fresh(free[i])
    {
      this.databufLen := databufLen;
      free, numFree, minFree, seen := [], n, n, [n];
      new;
      for i := 0 to n
        invariant this.databufLen == databufLen && numFree == minFree == n && seen == [n] && |free| == i
        invariant forall j | 0 <= j < i :: fresh(free[j]) && free[j].pool == this
        invariant forall j, k | 0 <= j < k < |free| :: free[j] != free[k]
      {
        var b := new Mbuf(this);
        free := free + [b];
      }
    }

    ghost predicate Ok()
      reads this
    {
      && 0 < databufLen < 0x1_0000
      && numFree == |free|
      && (forall b | b in free :: b.pool == this)
      && (forall i, j | 0 <= i < j < |free| :: free[i] != free[j])
      && LowWater()
    }

    /** The low-water mark is the least free count seen so far. */
    ghost predicate LowWater()
      reads this
    {
      && |seen| > 0 && seen[|seen| - 1] == numFree
      && minFree in seen && (forall i | 0 <= i < |seen| :: minFree <= seen[i])
    }

    /** os_memblock_get */
    method BlockGet() returns (b: Mbuf?)
      requires Ok()
      modifies this
      ensures Ok()
      ensures old(free) == [] ==> b == null && free == [] && seen == old(seen) && minFree == old(minFree)
      ensures old(free) != [] ==> b == old(free)[0] && free == old(free)[1..] && seen == old(seen) + [numFree]
      ensures old(free) != [] ==> minFree == if old(minFree) > numFree then numFree else old(minFree)
    {
      b := null;
      if numFree != 0 {
        b := free[0];
        free := free[1..];
        numFree := numFree - 1;
        if minFree > numFree {
          minFree := numFree;
        }
        seen := seen + [numFree];
      }
    }

    /** os_memblock_put */
    method BlockPut(b: Mbuf)
      requires Ok() && b.pool == this && b !in free
      modifies this
      ensures Ok()
      ensures free == [b] + old(free) && minFree == old(minFree) && seen == old(seen) + [numFree]
    {
      free := [b] + free;
      numFree := numFree + 1;
      seen := seen + [numFree];
    }
  }

  /** struct os_mbuf. The data area is part of the buffer itself, as in the C structure. */
  class Mbuf {
    /** om_omp */
    const pool: Pool
    /** om_databuf; the packet header occupies its first pkthdrLen bytes */
    var databuf: seq<byte>
    /** om_data, as an offset into databuf */
    var off: nat
    /** om_len */
    var len: nat
    /** om_flags */
    var flags: nat
    /** om_pkthdr_len */
    var pkthdrLen: nat
    /** omp_len, kept in the packet header */
    var pktLen: uint16
    /** om_next */
    var next: Mbuf?

    constructor (pool: Pool)
      ensures this.pool == pool
    {
      this.pool := pool;
      databuf, off, len, flags, pkthdrLen, pktLen, next := [], 0, 0, 0, 0, 0, null;
    }

    function Snap(): Buf
      reads `databuf, `off, `len, `flags, `pkthdrLen, `pktLen
    {
      Buf(pool.databufLen, databuf, off, len, pkthdrLen, pktLen, flags)
    }

    /** The packet header, user header included. */
    function Header(): seq<byte>
      reads `databuf, `pkthdrLen
    {
      if pkthdrLen <= |databuf| then databuf[..pkthdrLen] else []
    }

    /** OS_MBUF_IS_PKTHDR */
    predicate IsPkthdr()
      reads `pkthdrLen
    {
      pkthdrLen >= PKTHDR_SIZE
    }

    /** _os_mbuf_leadingspace */
    function LeadingSpace(): int
      reads `off, `pkthdrLen
    {
      if IsPkthdr() then off - pkthdrLen else off
    }

    /** _os_mbuf_trailingspace */
    function TrailingSpace(): int
      reads `off, `len
    {
      pool.databufLen - (off + len)
    }

    /** memcpy(om_data + om_len, s); om_len += |s| */
    method Fill(s: seq<byte>)
      requires Snap().Ok() && |s| <= TrailingSpace()
      modifies `databuf, `len
      ensures Snap().Ok() && len == old(len) + |s|
      ensures Snap().Data() == old(Snap().Data()) + s && databuf[..off] == old(databuf[..off])
    {
      databuf := Splice(databuf, off + len, s);
      len := len + |s|;
      assert databuf[..off] == databuf[..old(off + len)][..off];
      assert Snap().Data() == databuf[..old(off + len)][off..] + s;
    }
  }

  /** The i-th buffer of a chain, or null past its end. */
  function At(c: seq<Mbuf>, i: nat): Mbuf? {
    if i < |c| then c[i] else null
  }

  /** c lists the buffers reached from om by following om_next; no buffer is reached twice. */
  ghost predicate Linked(om: Mbuf?, c: seq<Mbuf>)
    reads c`next
  {
    && om == At(c, 0)
    && (forall i {:trigger c[i].next} | 0 <= i < |c| :: c[i].next == At(c, i + 1))
    && (forall i, j | 0 <= i < j < |c| :: c[i] != c[j])
  }

  ghost function Snaps(c: seq<Mbuf>): (s: seq<Buf>)
    reads c`databuf, c`off, c`len, c`flags, c`pkthdrLen, c`pktLen
    ensures |s| == |c|
  {
    if c == [] then [] else [c[0].Snap()] + Snaps(c[1..])
  }

  /** A chain of buffers that starts at om. */
  ghost predicate Packet(om: Mbuf?, c: seq<Mbuf>)
    reads c
  {
    Linked(om, c) && Sound(Snaps(c))
  }

  /** The packet's bytes. */
  ghost function Bytes(c: seq<Mbuf>): seq<byte>
    reads c`databuf, c`off, c`len, c`flags, c`pkthdrLen, c`pktLen
  {
    Content(Snaps(c))
  }

  /** The packet header's length field agrees with the chain. */
  ghost predicate Counted(c: seq<Mbuf>)
    reads c
  {
    c != [] && c[0].IsPkthdr() ==> c[0].pktLen == U16(|Bytes(c)|)
  }

  ghost function Set(c: seq<Mbuf>): set<Mbuf> {
    set m | m in c
  }

  /** A set of pools, each with the record of free counts that it had at some earlier moment. */
  type Pools = map<Pool, seq<nat>>

  /** The pools are consistent, and their records of free counts continue the earlier ones. */
  ghost predicate World(ps: Pools)
    reads ps.Keys
  {
    forall q | q in ps :: q.Ok() && ps[q] <= q.seen
  }

  /** All blocks on the free lists of ps. */
  ghost function FreeBlocks(ps: Pools): set<Mbuf>
    reads ps.Keys
  {
    set q, b | q in ps && b in q.free :: b
  }

  /** The pools are consistent, the chain's buffers come from them and none is on a free list. */
  ghost predicate Owned(c: seq<Mbuf>, ps: Pools)
    reads ps.Keys
  {
    World(ps) && (forall i | 0 <= i < |c| :: c[i].pool in ps) && Set(c) !! FreeBlocks(ps)
  }

  // Facts about chains.

  /** The links of a chain. */
  lemma NextAt(om: Mbuf?, c: seq<Mbuf>, i: nat)
    requires Linked(om, c)
    ensures om == At(c, 0)
    ensures i < |c| ==> c[i].next == At(c, i + 1)
  {
  }

  lemma {:induction false} SnapAt(c: seq<Mbuf>, i: nat)
    requires i < |c|
    ensures Snaps(c)[i] == c[i].Snap()
  {
    if i > 0 {
      SnapAt(c[1..], i - 1);
    }
  }

  lemma SnapsAt(c: seq<Mbuf>)
    ensures forall i | 0 <= i < |c| :: Snaps(c)[i] == c[i].Snap()
  {
    hide *;
    forall i | 0 <= i < |c| ensures Snaps(c)[i] == c[i].Snap() {
      SnapAt(c, i);
    }
  }

  lemma SnapsConcat(a: seq<Mbuf>, b: seq<Mbuf>)
    ensures Snaps(a + b) == Snaps(a) + Snaps(b)
  {
    hide *;
    SnapsAt(a);
    SnapsAt(b);
    SnapsAt(a + b);
  }

  lemma SnapsSnoc(c: seq<Mbuf>, m: Mbuf)
    ensures Snaps(c + [m]) == Snaps(c) + [m.Snap()]
  {
    hide *;
    SnapsAt([m]);
    SnapsConcat(c, [m]);
  }

  /** No buffer is in a chain twice. */
  lemma Others(om: Mbuf?, c: seq<Mbuf>, i: nat)
    requires Linked(om, c) && i < |c|
    ensures forall j | 0 <= j < |c| && j != i :: c[j] != c[i]
  {
  }

  /** Changing one buffer changes one entry of s, what the buffers held before. */
  lemma SnapsUpdate(c: seq<Mbuf>, s: seq<Buf>, i: nat)
    requires i < |c| == |s| && forall j | 0 <= j < |c| && j != i :: c[j] != c[i]
    requires forall j | 0 <= j < |c| :: c[j] == c[i] || c[j].Snap() == s[j]
    ensures Snaps(c) == s[i := c[i].Snap()]
  {
    hide Snaps, Mbuf.Snap;
    SnapsAt(c);
  }

  lemma SnapsSlice(c: seq<Mbuf>, i: nat)
    requires i <= |c|
    ensures Snaps(c[..i]) == Snaps(c)[..i] && Snaps(c[i..]) == Snaps(c)[i..]
  {
    hide *;
    assert c == c[..i] + c[i..];
    SnapsConcat(c[..i], c[i..]);
  }

  /** Every buffer of a chain heads a chain of its own. */
  lemma LinkedFrom(om: Mbuf?, c: seq<Mbuf>, i: nat)
    requires Linked(om, c) && i <= |c|
    ensures Linked(At(c, i), c[i..])
  {
    forall j | 0 <= j < |c[i..]| ensures c[i..][j].next == At(c[i..], j + 1) {
      assert c[i..][j] == c[i + j];
    }
  }

  lemma OneElement(m: Mbuf)
    ensures Set([m]) == {m}
  {
  }

  lemma SetSplit(c: seq<Mbuf>, i: nat)
    requires i <= |c| && forall j, k | 0 <= j < k < |c| :: c[j] != c[k]
    ensures Set(c) == Set(c[..i]) + Set(c[i..]) && Set(c[..i]) !! Set(c[i..])
  {
    assert c == c[..i] + c[i..];
  }

  /** No buffer of one chain is a buffer of the other. */
  lemma Apart(f: seq<Mbuf>, e: seq<Mbuf>)
    requires Set(f) !! Set(e)
    ensures forall j, k | 0 <= j < |f| && 0 <= k < |e| :: f[j] != e[k]
  {
    forall j, k | 0 <= j < |f| && 0 <= k < |e| ensures f[j] != e[k] {
      assert f[j] in Set(f) && e[k] in Set(e);
    }
  }

  // Facts about pools.

  /** Both parts of a divided chain are owned. */
  lemma OwnedSplit(om: Mbuf?, c: seq<Mbuf>, i: nat, ps: Pools)
    requires Linked(om, c) && Owned(c, ps) && i <= |c|
    ensures Owned(c[..i], ps) && Owned(c[i..], ps)
    ensures Set(c) == Set(c[..i]) + Set(c[i..]) && Set(c[..i]) !! Set(c[i..])
  {
    hide World, FreeBlocks;
    SetSplit(c, i);
  }

  /** The links of a packet. */
  lemma FollowAt(om: Mbuf?, c: seq<Mbuf>, i: nat)
    requires Packet(om, c)
    ensures Linked(om, c) && om == At(c, 0) && (i < |c| ==> c[i].next == At(c, i + 1))
  {
  }

  /** The head of a packet. */
  lemma HeadAt(om: Mbuf, c: seq<Mbuf>)
    requires Packet(om, c)
    ensures Linked(om, c) && c != [] && om == c[0] && om in c
  {
  }

  /** The chain without buffers. */
  lemma EmptyChain(ps: Pools)
    requires World(ps)
    ensures Packet(null, []) && Owned([], ps) && Set([]) == {} && Bytes([]) == []
  {
    NoBuffers();
  }

  lemma NoBuffers()
    ensures Snaps([]) == [] && Sound(Snaps([])) && Bytes([]) == [] && Linked(null, []) && Set([]) == {}
  {
  }

  lemma NotHeader(om: Mbuf?, c: seq<Mbuf>, i: nat)
    requires Packet(om, c) && 0 < i < |c|
    ensures c[i].pkthdrLen == 0 && c[i].LeadingSpace() == c[i].off
  {
    hide Linked, Snaps, Buf.Ok;
    SnapAt(c, i);
    SoundAt(Snaps(c), i);
  }

  lemma NotBehind(om: Mbuf, c: seq<Mbuf>)
    requires Linked(om, c)
    ensures om !in c[1..]
  {
  }

  lemma PoolsOk(c: seq<Mbuf>, ps: Pools, q: Pool)
    requires Owned(c, ps)
    ensures World(ps) && forall i | 0 <= i < |c| :: c[i].pool in ps
    ensures q in ps ==>
        && 0 < q.databufLen < 0x1_0000 && q.numFree == |q.free| && forall i | 0 <= i < |c| :: c[i] !in q.free
  {
    if q in ps {
      OwnedAt(c, ps, q);
    }
  }

  lemma OwnedAt(c: seq<Mbuf>, ps: Pools, q: Pool)
    requires Owned(c, ps) && q in ps
    ensures q.Ok() && forall i | 0 <= i < |c| :: c[i] !in q.free
  {
    hide Pool.Ok;
    forall i | 0 <= i < |c| ensures c[i] !in q.free {
      assert c[i] in Set(c);
    }
  }

  /** Exactly the blocks on their own pool's list are free. */
  lemma FreeAt(ps: Pools, b: Mbuf)
    requires World(ps)
    ensures b in FreeBlocks(ps) <==> b.pool in ps && b in b.pool.free
  {
    hide Pool.LowWater;
  }

  /** What the free blocks are once the list of one pool has become f. */
  lemma FreeBut(ps: Pools, q: Pool)
    requires World(ps) && q in ps
    ensures FreeBlocks(ps) == FreeBlocks(ps - {q}) + Set(q.free)
  {
    hide Pool.Ok;
  }

  /** The blocks of s that belong to q. */
  ghost function OfPool(s: set<Mbuf>, q: Pool): set<Mbuf> {
    set b | b in s && b.pool == q
  }

  /** Different buffers of one pool. */
  ghost predicate OfOne(f: seq<Mbuf>, q: Pool) {
    (forall i | 0 <= i < |f| :: f[i].pool == q) && forall i, j | 0 <= i < j < |f| :: f[i] != f[j]
  }

  lemma FreePools(ps: Pools, q: Pool)
    requires World(ps) && q in ps
    ensures OfOne(q.free, q) && forall i | 0 <= i < |q.free| :: q.free[i].pool == q
    ensures forall k | 0 <= k <= |q.free| :: OfOne(q.free[..k], q)
  {
    hide Pool.LowWater;
  }

  lemma CountOfOne(f: seq<Mbuf>, q: Pool)
    requires OfOne(f, q)
    ensures |Set(f)| == |f| && OfPool(Set(f), q) == Set(f)
  {
    DistinctCount(f);
  }

  lemma PoolOf(a: set<Mbuf>, b: set<Mbuf>, q: Pool)
    requires a !! b
    ensures |OfPool(a + b, q)| == |OfPool(a, q)| + |OfPool(b, q)|
  {
    assert OfPool(a + b, q) == OfPool(a, q) + OfPool(b, q);
  }

  /** Where all blocks stay, those of each pool do. */
  lemma PoolShare(f0: set<Mbuf>, c: set<Mbuf>, f1: set<Mbuf>, a: set<Mbuf>, b: set<Mbuf>, q: Pool)
    requires f1 + a + b == f0 + c && f0 !! c && f1 !! a && f1 !! b && a !! b
    ensures |OfPool(f1, q)| + |OfPool(a, q)| + |OfPool(b, q)| == |OfPool(f0, q)| + |OfPool(c, q)|
  {
    hide OfPool;
    PoolOf(f0, c, q);
    PoolOf(f1, a, q);
    PoolOf(f1 + a, b, q);
  }

  lemma FreeOfPool(ps: Pools, q: Pool)
    requires World(ps) && q in ps
    ensures Set(q.free) == OfPool(FreeBlocks(ps), q) && |Set(q.free)| == |q.free|
  {
    hide Pool.LowWater;
    DistinctCount(q.free);
  }

  lemma DistinctCount(f: seq<Mbuf>)
    requires forall i, j | 0 <= i < j < |f| :: f[i] != f[j]
    ensures |Set(f)| == |f|
  {
    Counting.ElementsDistinct(f);
    assert Set(f) == Counting.Elements(f);
  }

  /** os_memblock_get, in terms of all pools. */
  method Take(pool: Pool, ghost ps: Pools) returns (om: Mbuf?)
    requires World(ps) && pool in ps
    modifies pool
    ensures World(ps)
    ensures om == null ==> old(pool.free) == [] && FreeBlocks(ps) == old(FreeBlocks(ps)) && pool.free == []
    ensures om != null ==>
        && old(pool.free) != [] && om == old(pool.free)[0] && om.pool == pool && pool.free == old(pool.free)[1..]
    ensures om != null ==> om in old(FreeBlocks(ps)) && FreeBlocks(ps) == old(FreeBlocks(ps)) - {om}
  {
    hide FreeBlocks, Pool.LowWater;
    FreeBut(ps, pool);
    om := pool.BlockGet();
    FreeBut(ps, pool);
    if om != null {
      FreeAt(ps - {pool}, om);
    }
  }

  /** os_mbuf_get: the data area of a block fresh from the pool holds arbitrary bytes. */
  method Get(pool: Pool, leading: nat, ghost ps: Pools) returns (om: Mbuf?)
    requires World(ps) && pool in ps
    modifies pool, pool.free
    ensures World(ps)
    ensures om == null <==> (leading > pool.databufLen || old(pool.free) == [])
    ensures om == null ==> pool.free == old(pool.free) && FreeBlocks(ps) == old(FreeBlocks(ps))
    ensures om != null ==> om == old(pool.free)[0] && om.pool == pool && pool.free == old(pool.free)[1..]
    ensures om != null ==> om in old(FreeBlocks(ps)) && FreeBlocks(ps) == old(FreeBlocks(ps)) - {om}
    ensures om != null ==>
        && om.Snap().Ok() && om.next == null && om.flags == 0 && om.pkthdrLen == 0 && om.len == 0 && om.off == leading
  {
    hide FreeBlocks, World;
    if leading > pool.databufLen {
      return null;
    }
    om := Take(pool, ps);
    if om == null {
      return;
    }
    var stale := new byte[pool.databufLen];
    om.databuf := stale[..];
    om.next, om.flags, om.pkthdrLen, om.len, om.off := null, 0, 0, 0, leading;
  }

  /** A single buffer without data is a chain that holds nothing. */
  lemma SinglePacket(om: Mbuf)
    requires om.Snap().Ok() && om.next == null && om.len == 0
    ensures Packet(om, [om]) && Bytes([om]) == []
  {
    assert Snaps([om]) == [om.Snap()];
    ContentOne(om.Snap());
  }

  lemma OwnedSingle(om: Mbuf, ps: Pools)
    requires World(ps) && om.pool in ps && om !in FreeBlocks(ps)
    ensures Owned([om], ps) && Set([om]) == {om}
  {
  }

  /** Whether a packet header with n bytes of user header fits a buffer of q. */
  predicate HeaderFits(q: Pool, n: nat) {
    n + PKTHDR_SIZE <= q.databufLen && n + PKTHDR_SIZE <= 0xff
  }

  lemma OwnedAgain(cf: seq<Mbuf>, ps: Pools)
    requires World(ps) && Set(cf) !! FreeBlocks(ps) && forall i | 0 <= i < |cf| :: cf[i].pool in ps
    ensures Owned(cf, ps)
  {
  }

  lemma OwnedApart(c: seq<Mbuf>, ps: Pools)
    requires Owned(c, ps)
    ensures World(ps) && Set(c) !! FreeBlocks(ps)
  {
  }

  /** os_mbuf_get_pkthdr */
  method GetPkthdr(pool: Pool, userLen: nat, ghost ps: Pools) returns (om: Mbuf?)
    requires World(ps) && pool in ps && userLen < 0x100
    modifies pool, pool.free
    ensures World(ps)
    ensures om == null <==> !HeaderFits(pool, userLen) || old(pool.free) == []
    ensures om == null ==> pool.free == old(pool.free) && FreeBlocks(ps) == old(FreeBlocks(ps))
    ensures om != null ==> om == old(pool.free)[0] && om.pool == pool && pool.free == old(pool.free)[1..]
    ensures om != null ==> om in old(FreeBlocks(ps)) && FreeBlocks(ps) == old(FreeBlocks(ps)) - {om}
    ensures om != null ==>
        && Packet(om, [om]) && Owned([om], ps) && Set([om]) == {om} && Bytes([om]) == [] && om.len == 0
        && om.Snap().Ok()
    ensures om != null ==>
        && om.pkthdrLen == userLen + PKTHDR_SIZE && om.pktLen == 0 && om.off == om.pkthdrLen && om.flags == 0
  {
    hide World, FreeBlocks, Owned, Packet, Bytes, Set;
    var pkthdrLen := userLen + PKTHDR_SIZE;
    if pkthdrLen > pool.databufLen || pkthdrLen > 0xff {
      return null;
    }
    om := Get(pool, 0, ps);
    if om != null {
      om.pkthdrLen := pkthdrLen;
      om.off := om.off + pkthdrLen;
      om.pktLen := 0;
      SinglePacket(om);
      OwnedSingle(om, ps);
    }
  }

  /** os_mbuf_free */
  method Free(om: Mbuf, ghost ps: Pools)
    requires World(ps) && om.pool in ps && om !in FreeBlocks(ps)
    modifies om.pool
    ensures World(ps) && om.pool.free == [om] + old(om.pool.free)
    ensures FreeBlocks(ps) == old(FreeBlocks(ps)) + {om}
  {
    hide FreeBlocks, Pool.LowWater;
    FreeBut(ps, om.pool);
    om.pool.BlockPut(om);
    FreeBut(ps, om.pool);
  }

  /** os_mbuf_free_chain: every buffer goes back to its own pool, once. */
  method FreeChain(om: Mbuf?, ghost c: seq<Mbuf>, ghost ps: Pools)
    requires Linked(om, c) && Owned(c, ps)
    modifies ps.Keys
    ensures World(ps) && FreeBlocks(ps) == old(FreeBlocks(ps)) + Set(c)
  {
    hide Linked, World, FreeBlocks;
    var cur := om;
    ghost var i := 0;
    NextAt(om, c, 0);
    while cur != null
      invariant Linked(om, c) && i <= |c| && cur == At(c, i)
      invariant World(ps) && FreeBlocks(ps) == old(FreeBlocks(ps)) + Set(c[..i])
      decreases |c| - i
    {
      NextAt(om, c, i);
      var next := cur.next;
      DistinctAt(om, c, i);
      Free(cur, ps);
      cur := next;
      i := i + 1;
    }
    assert c[..i] == c;
  }

  lemma DistinctAt(om: Mbuf?, c: seq<Mbuf>, i: nat)
    requires Linked(om, c) && i < |c|
    ensures c[i] in Set(c) && c[i] !in Set(c[..i]) && Set(c[..i + 1]) == Set(c[..i]) + {c[i]}
  {
  }

  /** A block taken from its pool may join a chain. */
  lemma OwnedSnoc(c: seq<Mbuf>, m: Mbuf, ps: Pools, before: set<Mbuf>)
    requires World(ps) && m.pool in ps && (forall i | 0 <= i < |c| :: c[i].pool in ps)
    requires Set(c) !! before && m in before && FreeBlocks(ps) == before - {m}
    ensures Owned(c + [m], ps) && m !in c
    ensures FreeBlocks(ps) + Set(c + [m]) == before + Set(c)
  {
    hide World, FreeBlocks;
    assert m !in Set(c);
    assert Set(c + [m]) == Set(c) + {m};
  }

  lemma ContentPktLen(s: seq<Buf>, n: uint16)
    requires s != []
    ensures Content(s[0 := s[0].(pktLen := n)]) == Content(s)
  {
    ContentSame(s, 0, s[0].(pktLen := n));
  }

  /** SLIST_NEXT(last) = m, for the last buffer of a chain */
  method LinkLast(ghost om: Mbuf, ghost c: seq<Mbuf>, last: Mbuf, m: Mbuf)
    requires Linked(om, c) && c != [] && last == c[|c| - 1]
    requires m !in c && m.next == null
    modifies last`next
    ensures Linked(om, c + [m])
  {
    last.next := m;
  }

  /** Writing the length field of the packet header leaves the packet as it is. */
  method SetPktLen(om: Mbuf, ghost c: seq<Mbuf>, n: uint16)
    requires Packet(om, c) && c != []
    modifies om`pktLen
    ensures Packet(om, c) && om.pktLen == n && Bytes(c) == old(Bytes(c))
  {
    hide Snaps, Content, Sound;
    ghost var s := Snaps(c);
    SnapsAt(c);
    om.pktLen := n;
    Others(om, c, 0);
    SnapsUpdate(c, s, 0);
    SoundAt(s, 0);
    SoundUpdate(s, 0, om.Snap());
    ContentPktLen(s, n);
  }

  lemma SnapsWithout(c: seq<Mbuf>, k: nat)
    requires k < |c|
    ensures Snaps(Without(c, k)) == Without(Snaps(c), k)
  {
    hide Snaps;
    SnapsSlice(c, k);
    SnapsSlice(c, k + 1);
    SnapsConcat(c[..k], c[k + 1..]);
  }

  lemma SetWithout(c: seq<Mbuf>, k: nat)
    requires k < |c| && forall i, j | 0 <= i < j < |c| :: c[i] != c[j]
    ensures Set(Without(c, k)) == Set(c) - {c[k]} && c[k] in Set(c)
  {
    assert c == c[..k] + [c[k]] + c[k + 1..];
  }

  lemma OwnedWithout(om: Mbuf?, c: seq<Mbuf>, k: nat, ps: Pools)
    requires Linked(om, c) && Owned(c, ps) && k < |c|
    ensures c[k] !in FreeBlocks(ps) && c[k].pool in ps && c[k] in Set(c)
    ensures Set(Without(c, k)) == Set(c) - {c[k]}
    ensures forall i | 0 <= i < |Without(c, k)| :: Without(c, k)[i].pool in ps
  {
    hide World, FreeBlocks;
    SetWithout(c, k);
  }

  /** The links once the buffer behind c[k] has been bypassed. */
  lemma LinkedWithout(om: Mbuf?, c: seq<Mbuf>, k: nat)
    requires k + 1 < |c| && om == c[0] && c[k].next == At(c, k + 2)
    requires forall i {:trigger c[i].next} | 0 <= i < |c| && i != k :: c[i].next == At(c, i + 1)
    requires forall i, j | 0 <= i < j < |c| :: c[i] != c[j]
    ensures Linked(om, Without(c, k + 1))
  {
    var d := Without(c, k + 1);
    forall i | 0 <= i < |d| ensures d[i].next == At(d, i + 1) {
      assert d[i] == if i <= k then c[i] else c[i + 1];
    }
  }

  /** Unlinks and frees the empty buffer behind the k-th one. */
  method RemoveNext(ghost om: Mbuf, ghost c: seq<Mbuf>, ghost k: nat, prev: Mbuf, m: Mbuf, ghost ps: Pools)
    returns (next: Mbuf?)
    requires Packet(om, c) && Owned(c, ps) && k + 1 < |c| && prev == c[k] && m == c[k + 1] && m.len == 0
    modifies prev`next, m.pool
    ensures Packet(om, Without(c, k + 1)) && Owned(Without(c, k + 1), ps)
    ensures FreeBlocks(ps) + Set(Without(c, k + 1)) == old(FreeBlocks(ps)) + Set(c)
    ensures Bytes(Without(c, k + 1)) == old(Bytes(c)) && Snaps(c) == old(Snaps(c))
    ensures next == At(c, k + 2)
  {
    hide Snaps, Content, Sound, World, FreeBlocks;
    NextAt(om, c, k + 1);
    SnapAt(c, k + 1);
    OwnedWithout(om, c, k + 1, ps);
    next := m.next;
    prev.next := next;
    LinkedWithout(om, c, k);
    Free(m, ps);
    SnapsWithout(c, k + 1);
    SoundWithout(Snaps(c), k + 1);
    ContentWithout(Snaps(c), k + 1);
  }

  /** A first buffer in front of a chain without packet header. */
  lemma ConsPacket(p: Mbuf, c: seq<Mbuf>)
    requires Linked(At(c, 0), c) && Sound(Snaps(c)) && (c != [] ==> c[0].pkthdrLen == 0)
    requires p !in c && p.next == At(c, 0) && p.Snap().Ok()
    ensures Packet(p, [p] + c) && Bytes([p] + c) == p.Snap().Data() + Bytes(c)
  {
    hide Snaps, Content, Sound, Buf.Data;
    SnapsConcat([p], c);
    SnapsAt([p]);
    assert Snaps([p]) == [p.Snap()];
    SnapsAt(c);
    SoundCons(p.Snap(), Snaps(c));
    ContentOne(p.Snap());
    ContentConcat([p.Snap()], Snaps(c));
    var d := [p] + c;
    assert forall i, j | 0 <= i < j < |d| :: d[i] != d[j];
    forall i | 0 <= i < |d| ensures d[i].next == At(d, i + 1) {
      if i > 0 {
        assert d[i] == c[i - 1] && c[i - 1].next == At(c, i);
      }
    }
  }

  lemma OwnedCons(p: Mbuf, c: seq<Mbuf>, ps: Pools, before: set<Mbuf>)
    requires World(ps) && p.pool in ps && (forall i | 0 <= i < |c| :: c[i].pool in ps)
    requires Set(c) !! before && p in before && FreeBlocks(ps) == before - {p}
    ensures Owned([p] + c, ps) && p !in c && FreeBlocks(ps) + Set([p] + c) == before + Set(c)
  {
    hide World, FreeBlocks;
    assert p !in Set(c);
    assert Set([p] + c) == Set(c) + {p};
  }

  lemma Headerless(p: Mbuf)
    ensures p.pkthdrLen == 0 ==> p.Header() == []
  {
  }

  /** _os_mbuf_copypkthdr */
  method CopyPkthdr(newBuf: Mbuf, oldBuf: Mbuf)
    requires newBuf != oldBuf && newBuf.len == 0 && newBuf.pool == oldBuf.pool
    requires newBuf.Snap().Ok() && oldBuf.Snap().Ok() && oldBuf.IsPkthdr()
    modifies newBuf`databuf, newBuf`pkthdrLen, newBuf`off, newBuf`pktLen
    ensures newBuf.Snap().Ok() && newBuf.off == newBuf.pkthdrLen == oldBuf.pkthdrLen && newBuf.pktLen == oldBuf.pktLen
    ensures newBuf.Header() == oldBuf.Header()
  {
    newBuf.databuf := Splice(newBuf.databuf, 0, oldBuf.databuf[..oldBuf.pkthdrLen]);
    newBuf.pktLen := oldBuf.pktLen;
    newBuf.pkthdrLen := oldBuf.pkthdrLen;
    newBuf.off := oldBuf.pkthdrLen;
  }

  lemma FreeReach(ps: Pools, q: Pool)
    requires World(ps) && q in ps
    ensures forall i | 0 <= i < |q.free| :: q.free[i] in FreeBlocks(ps)
  {
    hide Pool.Ok;
    forall i | 0 <= i < |q.free| ensures q.free[i] in FreeBlocks(ps) {
      assert q.free[i] in q.free;
    }
  }

  /** Blocks of a chain or a free list that came from a known stock of blocks. */
  lemma ChainReach(e: seq<Mbuf>, c: seq<Mbuf>, ps: Pools, q: Pool, before: set<Mbuf>)
    requires World(ps) && q in ps && FreeBlocks(ps) + Set(e) <= before + Set(c)
    ensures forall i | 0 <= i < |e| :: e[i] in before || e[i] in c
    ensures forall i | 0 <= i < |q.free| :: q.free[i] in before || q.free[i] in c
  {
    hide World, FreeBlocks;
    FreeReach(ps, q);
    forall i | 0 <= i < |e| ensures e[i] in before || e[i] in c {
      assert e[i] in Set(e) && e[i] in before + Set(c);
    }
    forall i | 0 <= i < |q.free| ensures q.free[i] in before || q.free[i] in c {
      assert q.free[i] in before + Set(c);
    }
  }
}
