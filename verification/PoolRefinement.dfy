// The pool of buffers with its list of blocks, and the same pool with the list threaded through memory.
module PoolRefinement {
  import opened Mbufs
  import opened Mempools

  /** The addresses of the blocks of a list. */
  ghost function Places(f: seq<Mbuf>, addr: map<Mbuf, nat>): (l: seq<nat>)
    requires forall i | 0 <= i < |f| :: f[i] in addr
    ensures |l| == |f| && forall i | 0 <= i < |f| :: l[i] == addr[f[i]]
  {
    if f == [] then [] else [addr[f[0]]] + Places(f[1..], addr)
  }

  /** addr places every block of a pool at an address of its own. */
  ghost predicate Layout(p: Pool, mp: Mempool, addr: map<Mbuf, nat>)
    reads mp
  {
    && (forall b | b in addr :: b.pool == p && mp.IsBlock(addr[b]))
    && (forall a, b | a in addr && b in addr && addr[a] == addr[b] :: a == b)
  }

  /** mp is p in memory: the same free blocks in the same order, and the same counters. */
  ghost predicate Represents(p: Pool, mp: Mempool, addr: map<Mbuf, nat>)
    reads p, mp
  {
    && p.Ok() && mp.Placed() && Layout(p, mp, addr)
    && (forall i | 0 <= i < |p.free| :: p.free[i] in addr)
    && mp.FreeList(Places(p.free, addr)) && p.numFree == mp.numFree && p.minFree == mp.minFree
  }

  /** os_memblock_get on both gives the same block. */
  method GetBoth(p: Pool, mp: Mempool, ghost addr: map<Mbuf, nat>) returns (b: Mbuf?, block: nat)
    requires Represents(p, mp, addr)
    modifies p, mp
    ensures Represents(p, mp, addr)
    ensures b == null <==> block == 0
    ensures b != null ==> b in addr && addr[b] == block
  {
    hide Mempool.Placed, Mempool.IsBlock, Threaded;
    ghost var l := Places(p.free, addr);
    if p.free != [] {
      NotNull(mp, l[0]);
    }
    b := p.BlockGet();
    block := mp.Get(l);
    if b != null {
      assert l[1..] == Places(p.free, addr);
    }
  }

  lemma NotNull(mp: Mempool, a: nat)
    requires mp.Placed() && mp.IsBlock(a)
    ensures a != 0
  {
    mp.BlocksNotNull(a);
  }

  /** os_memblock_put of the same block on both. */
  method PutBoth(p: Pool, mp: Mempool, b: Mbuf, block: nat, ghost addr: map<Mbuf, nat>)
    requires Represents(p, mp, addr) && b in addr && addr[b] == block && b !in p.free
    modifies p, mp
    ensures Represents(p, mp, addr) && p.free == [b] + old(p.free)
  {
    hide Mempool.Placed, Mempool.IsBlock, Threaded;
    ghost var l := Places(p.free, addr);
    NotNull(mp, block);
    p.BlockPut(b);
    var rc := mp.Put(l, block);
    assert [block] + l == Places(p.free, addr);
  }

  /** A new pool and its memory, set up for the same number of blocks. */
  method SetUpBoth(d: nat, n: nat, size: nat, membuf: nat) returns (p: Pool, mp: Mempool, ghost addr: map<Mbuf, nat>)
    requires 0 < d < 0x1_0000 && 0 < n < 0x1_0000 && 0 < size < SPACE && 0 < membuf < SPACE
    requires membuf % OS_ALIGNMENT == 0 && membuf + MempoolBytes(n, size) <= SPACE
    ensures Represents(p, mp, addr) && |p.free| == n && |addr| == n
  {
    p := new Pool(d, n);
    mp := new Mempool();
    var rc := mp.Init(n, size, membuf);
    hide Mempool.Placed, Threaded, TrueBlockSize, BlockAt, MempoolBytes;
    addr := InOrder(p, mp);
  }

  /** Pairs the elements of two lists without repetitions. */
  lemma Pairing(f: seq<Mbuf>, l: seq<nat>) returns (addr: map<Mbuf, nat>)
    requires |f| == |l| && forall i, j | 0 <= i < j < |f| :: f[i] != f[j] && l[i] != l[j]
    ensures |addr| == |f| && forall b | b in addr :: exists i :: 0 <= i < |f| && b == f[i] && addr[b] == l[i]
    ensures forall i | 0 <= i < |f| :: f[i] in addr && addr[f[i]] == l[i]
    ensures forall a, b | a in addr && b in addr && addr[a] == addr[b] :: a == b
  {
    addr := map i | 0 <= i < |f| :: f[i] := l[i];
    DistinctCount(f);
    assert addr.Keys == Set(f);
    assert |addr| == |addr.Keys|;
  }

  lemma InOrder(p: Pool, mp: Mempool) returns (addr: map<Mbuf, nat>)
    requires p.Ok() && mp.Placed() && p.numFree == mp.numBlocks && mp.FreeList(mp.AllBlocks())
    ensures Layout(p, mp, addr) && |addr| == p.numFree
    ensures (forall i | 0 <= i < |p.free| :: p.free[i] in addr) && Places(p.free, addr) == mp.AllBlocks()
  {
    hide Mempool.Placed, Mempool.IsBlock, Threaded, TrueBlockSize, BlockAt, Pool.LowWater;
    var l := mp.AllBlocks();
    addr := Pairing(p.free, l);
    forall b | b in addr ensures b.pool == p && mp.IsBlock(addr[b]) {
      var i :| 0 <= i < |p.free| && b == p.free[i] && addr[b] == l[i];
      assert b in p.free;
    }
  }
}
