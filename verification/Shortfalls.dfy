// Calls that succeed and leave less than they should, and a sound pool that fails its check.
module Shortfalls {
  import opened ByteSeqs
  import opened Bufs
  import opened Mbufs
  import opened Appending
  import Fragments
  import opened Trimming
  import opened Widening
  import opened Overwriting
  import opened Runs
  import Mempools
  import Packing
  import Spans

  /** An empty packet from a fresh pool of n buffers with d bytes each. */
  method FreshHead(d: nat, n: nat) returns (om: Mbuf, ghost ps: Pools)
    requires PKTHDR_SIZE < d < 0x1_0000 && 0 < n < 0x1_0000
    ensures om.pool.databufLen == d && Packet(om, [om]) && Owned([om], ps) && om.pool in ps && Bytes([om]) == []
    ensures fresh(om) && fresh(ps.Keys) && fresh(FreeBlocks(ps))
    ensures forall i | 0 <= i < |om.pool.free| :: fresh(om.pool.free[i])
    ensures om.IsPkthdr() && om.pktLen == 0 && om.len == 0 && om.off == om.pkthdrLen == PKTHDR_SIZE
        && |om.pool.free| == n - 1
  {
    hide Packet, Bytes, Owned, Set, World, FreeBlocks, Pool.Ok;
    var pool := new Pool(d, n);
    ps := map[pool := pool.seen];
    NewWorld(pool);
    assert fresh(FreeBlocks(ps)) by {
      SetIndex(pool.free);
    }
    om := GetPkthdr(pool, 0, ps);
  }

  /** A packet of data in a fresh pool of n buffers with d bytes each, in as few buffers as possible. */
  method FreshPacket(d: nat, n: nat, data: seq<byte>) returns (om: Mbuf, ghost c: seq<Mbuf>, ghost ps: Pools)
    requires PKTHDR_SIZE < d < 0x1_0000 && 0 < n < 0x1_0000
    requires PKTHDR_SIZE + |data| <= Capacity(n, d) && |data| < 0x1_0000
    ensures om.pool.databufLen == d && Packet(om, c) && Owned(c, ps) && om.pool in ps
    ensures fresh(ps.Keys) && fresh(Set(c)) && fresh(FreeBlocks(ps))
    ensures forall i | 0 <= i < |c| :: c[i].pool == om.pool
    ensures om.IsPkthdr() && om.pkthdrLen == PKTHDR_SIZE && om.pktLen == |data| && Bytes(c) == data
    ensures c != [] && |c| + |om.pool.free| == n && (|c| == 1 <==> PKTHDR_SIZE + |data| <= d)
    ensures Room(c, om.pool) == Capacity(n, d) - PKTHDR_SIZE - |data|
  {
    hide Packet, Bytes, Owned, Set, World, FreeBlocks, Capacity, Prefix, U16, Room, Pool.Ok;
    om, ps := FreshHead(d, n);
    PoolsOk([om], ps, om.pool);
    Fragments.RoomOfNew(om, om.pool, n);
    OneElement(om);
    OwnedApart([om], ps);
    FreePools(ps, om.pool);
    var rc;
    ghost var m, k;
    rc, c, m, k := Appending.Append(om, [om], data, ps);
    U16Same(|data|);
    assert [] + data[0..m] == data;
  }

  lemma SetIndex(c: seq<Mbuf>)
    ensures forall b | b in Set(c) :: exists i :: 0 <= i < |c| && c[i] == b
  {
  }

  lemma NewWorld(pool: Pool)
    requires pool.Ok()
    ensures World(map[pool := pool.seen]) && FreeBlocks(map[pool := pool.seen]) == Set(pool.free)
  {
  }

  /** os_mbuf_widen at the front of a full buffer with sixteen bytes: the tail does not fit behind a gap of ten. */
  method Spill(om: Mbuf, ghost c: seq<Mbuf>, ghost ps: Pools)
    returns (rc: int, total: nat, header: int, ghost c': seq<Mbuf>, ghost lost: set<Mbuf>)
    requires Packet(om, c) && Owned(c, ps) && |c| == 1 && om.IsPkthdr() && om.pktLen == |Bytes(c)| == 16
    requires om.pool.databufLen == 24 && |om.pool.free| == 2 && om.TrailingSpace() == 0
    modifies c, ps.Keys, FreeBlocks(ps)
    ensures rc == 0 && total == |Bytes(c')| == 24 && header == 16 + 10
    ensures Packet(om, c') && Owned(c', ps)
    ensures lost != {} && lost !! Set(c') && lost !! FreeBlocks(ps)
    ensures FreeBlocks(ps) + Set(c') + lost == old(FreeBlocks(ps)) + Set(c)
  {
    hide Packet, Bytes, Owned, World, FreeBlocks, Content, Snaps, Widened, Pool.Ok;
    FreeLists(c, ps);
    HeadAt(om, c);
    SoleBuffer(om, c);
    ghost var leaked, gap, i, sub;
    ghost var b := Bytes(c);
    rc, c', leaked, gap, i, sub := Widening.Widen(om, c, 0, 10, ps);
    WidenLoses(Bytes(c'), b, 0, 16, gap, 14);
    lost := Set(leaked);
    assert leaked[0] in lost;
    var last;
    total, last := Measure(om, c');
    U16Same(26);
    header := om.pktLen;
  }

  lemma SoleBuffer(om: Mbuf, c: seq<Mbuf>)
    requires Packet(om, c) && |c| == 1
    ensures om.len == |Bytes(c)|
  {
    hide Linked, Snaps, Content, Sound;
    var s := Snaps(c);
    HeadAt(om, c);
    SnapAt(c, 0);
    DataLen(s, 0);
    ContentFrom(s, 0);
    ContentNone(s);
    assert s[0..] == s;
  }

  /** The same from nothing: two of the sixteen bytes are gone, the header counts them all, and a block is in no packet
      and on no free list. */
  method WidenSpills() returns (rc: int, total: nat, header: int)
    ensures rc == 0 && total == 24 && header == 16 + 10
  {
    var data := seq(16, i => 0 as byte);
    var om;
    ghost var c, ps;
    om, c, ps := FreshPacket(24, 3, data);
    hide Packet, Bytes, Owned, Set, World, FreeBlocks;
    FullBuffer(om, c);
    ghost var c', lost;
    rc, total, header, c', lost := Spill(om, c, ps);
  }

  lemma FullBuffer(om: Mbuf, c: seq<Mbuf>)
    requires Packet(om, c) && |c| == 1
    ensures om == c[0] && Room(c, om.pool) == om.TrailingSpace() + Capacity(|om.pool.free|, om.pool.databufLen)
  {
  }

  /** os_mbuf_copyinto with five bytes at offset 1 of a packet with four bytes in two buffers. */
  method Miscount(om: Mbuf, ghost c: seq<Mbuf>, ghost ps: Pools)
    returns (rc: int, total: nat, header: int, ghost c': seq<Mbuf>)
    requires Packet(om, c) && Owned(c, ps) && |c| == 2 && om.IsPkthdr() && om.pktLen == |Bytes(c)| == 4
    requires Room(c, c[1].pool) >= 2
    modifies c, ps.Keys, FreeBlocks(ps)
    ensures rc == 0 && total == |Bytes(c')| == 6 && header == 4
    ensures Packet(om, c') && Bytes(c') == old(Bytes(c))[..1] + [5, 6, 7, 8, 9]
  {
    hide Packet, Bytes, Owned, Set, World, FreeBlocks, Room, Overwrite, Pool.Ok, Snaps;
    FreeLists(c, ps);
    CountedHead(om, c);
    ghost var b, n, k := Bytes(c), 0, 0;
    var src: seq<byte> := [5, 6, 7, 8, 9];
    rc, c', n, k := Overwriting.CopyInto(om, c, 1, src, ps);
    assert src[..5] == src;
    CopyComplete(b, 1, src);
    var last;
    total, last := Measure(om, c');
    header := om.pktLen;
  }

  /** The same from nothing: the header stays at four of six bytes. */
  method CopyMiscounts() returns (rc: int, total: nat, header: int)
    ensures rc == 0 && total == 6 && header == 4
  {
    var om;
    ghost var c, ps;
    om, c, ps := FreshPacket(10, 2, [1, 2, 3, 4]);
    hide Packet, Bytes, Owned, Set, World, FreeBlocks, Room;
    ghost var c';
    rc, total, header, c' := Miscount(om, c, ps);
  }

  /** os_mbuf_copyinto with 65536 bytes at the end of a packet: it succeeds, and none of them are written. */
  method CutOff(om: Mbuf, ghost c: seq<Mbuf>, src: seq<byte>, ghost ps: Pools)
    returns (rc: int, total: nat, ghost c': seq<Mbuf>)
    requires Packet(om, c) && Owned(c, ps) && |src| == 0x1_0000
    modifies c, ps.Keys, FreeBlocks(ps)
    ensures rc == 0 && total == |Bytes(c')| && Packet(om, c') && Bytes(c') == old(Bytes(c))
  {
    hide Packet, Bytes, Owned, Set, World, FreeBlocks, Room, Overwrite, Pool.Ok, Snaps;
    FreeLists(c, ps);
    HeadAt(om, c);
    LastRoom(om, c, ps);
    ghost var b, n, k := Bytes(c), 0, 0;
    var last;
    total, last := Measure(om, c);
    rc, c', n, k := Overwriting.CopyInto(om, c, total, src, ps);
    NothingWritten(b);
    total, last := Measure(om, c');
  }

  lemma NothingWritten(b: seq<byte>)
    ensures Overwrite(b, |b|, []) == b
  {
  }

  /** The same from nothing: sixteen bytes before and after, and 65536 bytes reported as written. */
  method CopyCutsOff() returns (rc: int, total: nat)
    ensures rc == 0 && total == 16
  {
    var om;
    ghost var c, ps;
    om, c, ps := FreshPacket(24, 3, seq(16, i => 0 as byte));
    hide Packet, Bytes, Owned, Set, World, FreeBlocks;
    ghost var c';
    rc, total, c' := CutOff(om, c, seq(0x1_0000, i => 1 as byte), ps);
  }

  /** A new pool of one block at the very end of the address space, as os_mempool_init accepts it, is not sane,
      and os_memblock_from does not recognise its block. */
  method LastInSpace() returns (rc: int, from: int, sane: bool)
    ensures rc == Mempools.OS_OK && from == 0 && !sane
  {
    var mp := new Mempools.Mempool();
    rc := mp.Init(1, 4, 0xFFFF_FFFC);
    hide Mempools.Threaded, Mempools.BlocksFrom;
    assert mp.FreeList(mp.AllBlocks()) && mp.Placed();
    from := Mempools.MemblockFrom(mp.membufAddr, mp.numBlocks, Mempools.TrueBlockSize(mp.blockSize), mp.first);
    sane := mp.IsSane(mp.AllBlocks());
  }

  /** os_mbuf_pack_chains with a full buffer and an empty packet: the empty buffer stays in the chain. */
  method PackLeaves(om: Mbuf, ghost c: seq<Mbuf>, om2: Mbuf, ghost ps: Pools) returns (last: Mbuf, ghost e: seq<Mbuf>)
    requires Packet(om, c) && Owned(c, ps) && |c| == 1 && om.pkthdrLen + |Bytes(c)| == om.pool.databufLen
    requires Packet(om2, [om2]) && Owned([om2], ps) && om2.len == 0 && om2 !in Set(c) && |Bytes(c)| > 0
    modifies c, om2, ps.Keys
    ensures Packet(om, e) && last in e && last != om && last.len == 0 && Bytes(e) == old(Bytes(c)) + old(Bytes([om2]))
  {
    hide Packet, Bytes, Owned, Set, World, FreeBlocks, Snaps, Packing.PackedUpTo, Packing.Joined;
    OneElement(om2);
    SoleBuffer(om, c);
    HeadAt(om, c);
    FullAndEmpty(c, om2);
    var r, total;
    r, e := Packing.PackChains(om, c, om2, [om2], ps);
    HeadAt(om, e);
    total, last := Measure(om, e);
    if |e| == 1 {
      SoleBuffer(om, e);
    }
    NotHead(om, e);
  }

  lemma FullAndEmpty(c: seq<Mbuf>, om2: Mbuf)
    requires |c| == 1 && c[0].pkthdrLen + c[0].len == c[0].pool.databufLen && om2.len == 0
    ensures Spans.EmptyLast(Packing.Joined(c, [om2]))
  {
    var s := Packing.Joined(c, [om2]);
    assert |s| == 2 && s[0].Free() == 0 && |s[1..]| == 1;
  }

  lemma NotHead(om: Mbuf, e: seq<Mbuf>)
    requires Packet(om, e) && |e| > 1
    ensures e[|e| - 1] != om
  {
  }

  /** A packet of data that fills its one buffer, and an empty packet from the same pool. */
  method FreshPair(data: seq<byte>) returns (om: Mbuf, om2: Mbuf, ghost ps: Pools)
    requires |data| == 16
    ensures fresh(om) && fresh(om2) && om != om2 && fresh(ps.Keys)
    ensures Packet(om, [om]) && Owned([om], ps) && Bytes([om]) == data && om.pkthdrLen + 16 == om.pool.databufLen
    ensures Packet(om2, [om2]) && Owned([om2], ps) && om2.len == 0
  {
    hide Packet, Bytes, Owned, Set, World, FreeBlocks, Pool.Ok, Room;
    ghost var c;
    om, c, ps := FreshPacket(24, 3, data);
    ghost var blocks := FreeBlocks(ps);
    HeadAt(om, c);
    assert c == [om];
    OneElement(om);
    OwnedApart(c, ps);
    FreeReach(ps, om.pool);
    om2 := GetPkthdr(om.pool, 0, ps);
    assert om2 in blocks;
    OwnedAgain([om], ps);
  }

  /** The same from nothing. */
  method PackLeavesEmpty() returns (head: Mbuf, last: Mbuf)
    ensures last != head && last.len == 0
  {
    var data := seq(16, i => 0 as byte);
    var om2;
    ghost var ps, e;
    head, om2, ps := FreshPair(data);
    hide Packet, Bytes, Owned, Set, World, FreeBlocks;
    OneElement(head);
    last, e := PackLeaves(head, [head], om2, ps);
  }
}
