// Whole runs of buffer operations: no block is ever lost, doubly free or shared by two packets.
module Runs {
  import opened ByteSeqs
  import opened Bufs
  import opened Mbufs
  import opened Appending
  import opened ChainCopy
  import opened Trimming
  import opened Prepending
  import opened Pullups
  import opened Widening
  import opened Joining
  import opened Packing
  import opened Overwriting
  import opened Duplicating
  import opened Fragments
  import opened Effects
  import Cursors

  /** What a call leaves behind: up to two packets, some blocks lost for good, everything else free. */
  ghost predicate Outcome(stock: set<Mbuf>, r: Mbuf?, c: seq<Mbuf>, r2: Mbuf?, c2: seq<Mbuf>, lost: set<Mbuf>,
                          ps: Pools)
    reads ps.Keys, c, c2
  {
    && Packet(r, c) && Packet(r2, c2) && Owned(c, ps) && Owned(c2, ps) && Set(c) !! Set(c2)
    && lost !! Set(c) + Set(c2) + FreeBlocks(ps)
    && FreeBlocks(ps) + Set(c) + Set(c2) + lost == stock
  }

  lemma OutcomeOne(stock: set<Mbuf>, r: Mbuf?, c: seq<Mbuf>, ps: Pools)
    requires FreeBlocks(ps) + Set(c) == stock
    requires if r == null then c == [] && World(ps) else Packet(r, c) && Owned(c, ps)
    ensures Outcome(stock, r, c, null, [], {}, ps)
  {
    hide Owned, Packet, World, FreeBlocks;
    if r != null {
      OwnedApart(c, ps);
    }
    EmptyChain(ps);
  }

  lemma OutcomeTwo(stock: set<Mbuf>, r: Mbuf?, c: seq<Mbuf>, r2: Mbuf?, c2: seq<Mbuf>, ps: Pools)
    requires FreeBlocks(ps) + Set(c) + Set(c2) == stock && Set(c) !! Set(c2)
    requires Packet(r, c) && Owned(c, ps) && Packet(r2, c2) && Owned(c2, ps)
    ensures Outcome(stock, r, c, r2, c2, {}, ps)
  {
  }

  /** The free lists hold free blocks. */
  lemma FreeLists(c: seq<Mbuf>, ps: Pools)
    requires Owned(c, ps)
    ensures World(ps) && forall i | 0 <= i < |c| :: c[i].pool in ps
    ensures forall q, b | q in ps && b in q.free :: b in FreeBlocks(ps)
  {
    hide Pool.Ok;
  }

  lemma CountedHead(om: Mbuf, c: seq<Mbuf>)
    requires Packet(om, c)
    ensures Counted(c) <==> (om.IsPkthdr() ==> om.pktLen == U16(|Bytes(c)|))
  {
    hide Bytes, U16;
    HeadAt(om, c);
  }

  /** The header's length after n bytes have come to a packet whose header was right. */
  lemma CountedAfter(om: Mbuf?, c: seq<Mbuf>, right: bool, was: nat, base: uint16, n: int)
    requires om == null ==> c == []
    requires om != null ==> Packet(om, c) && |Bytes(c)| == was + n
    requires om != null && om.IsPkthdr() ==> om.pktLen == U16(base + n) && (right ==> base == U16(was))
    ensures right ==> Counted(c)
  {
    hide Bytes, U16;
    U16Add(was, n);
    if om != null {
      CountedHead(om, c);
    }
  }

  lemma NoneCounted()
    ensures Counted([])
  {
  }

  ghost function LastPool(c: seq<Mbuf>): set<Pool> {
    if c == [] then {} else {c[|c| - 1].pool}
  }

  /** os_mbuf_copyinto keeps a right header right: nothing is appended, or to a single buffer, or all of it from the
      old end on. */
  ghost predicate CopySafe(c: seq<Mbuf>, off: nat, len: nat)
    reads c, LastPool(c)
  {
    var n := |Bytes(c)|;
    || c == [] || off > n || off + len <= n
    || if |c| == 1 then off == n || off + len < 0x1_0000 else off == n && U16(len) <= Room(c, c[|c| - 1].pool)
  }

  /** The packets a call gives back, as values. */
  ghost function Packs(r: Mbuf?, c: seq<Mbuf>): seq<Pack>
    reads c`databuf, c`off, c`len, c`flags, c`pkthdrLen, c`pktLen
  {
    if r == null then [] else [PackOf(c)]
  }

  /** os_mbuf_append */
  method ApplyAppend(om: Mbuf, ghost c: seq<Mbuf>, data: seq<byte>, ghost ps: Pools) returns (ghost c': seq<Mbuf>)
    requires Packet(om, c) && Owned(c, ps)
    modifies c, ps.Keys, FreeBlocks(ps)
    ensures Packet(om, c') && Owned(c', ps) && FreeBlocks(ps) + Set(c') == old(FreeBlocks(ps)) + Set(c)
    ensures old(Counted(c)) ==> Counted(c')
    ensures Effect(Call.Append(data), old(PackOf(c)), old(FreeOf(ps)), [PackOf(c')], 0)
  {
    hide Packet, Owned, Set, Bytes, World, FreeBlocks, Counted, U16, Snaps, Content, Pool.Ok, PackOf, PoolsOf, Room,
         Needed, Mbuf.Header, Mbuf.TrailingSpace, Mbuf.LeadingSpace, Pack.Bytes, Pack.Header, Pack.Trail, Pack.Lead,
         Pack.Head, Pack.Last, FreeOf, Pack.IsPkthdr;
    FreeLists(c, ps);
    HeadAt(om, c);
    CountedHead(om, c);
    Seen(om, c);
    RoomIs(c, om.pool);
    FreePools(ps, om.pool);
    ghost var p, f, b, base, F := PackOf(c), FreeOf(ps), |Bytes(c)|, om.pktLen, om.pool.free;
    var rc;
    ghost var n, k;
    rc, c', n, k := Appending.Append(om, c, data, ps);
    CountedAfter(om, c', old(Counted(c)), b, base, n);
    Seen(om, c');
    PoolsMore(c, F, k, om.pool);
  }

  /** os_mbuf_adj */
  method ApplyAdj(om: Mbuf, ghost c: seq<Mbuf>, n: int, ghost ps: Pools) returns (ghost c': seq<Mbuf>)
    requires Packet(om, c) && Owned(c, ps)
    modifies c, ps.Keys, FreeBlocks(ps)
    ensures Packet(om, c') && Owned(c', ps) && FreeBlocks(ps) + Set(c') == old(FreeBlocks(ps)) + Set(c)
    ensures old(Counted(c)) ==> Counted(c')
    ensures Effect(Call.Adj(n), old(PackOf(c)), old(FreeOf(ps)), [PackOf(c')], 0)
  {
    hide Packet, Owned, Set, Bytes, World, FreeBlocks, Counted, U16, Snaps, Content, Pool.Ok, PackOf, PoolsOf,
         Mbuf.TrailingSpace, Mbuf.LeadingSpace, Pack.Bytes, Pack.Header, Pack.Trail, Pack.Lead, Pack.Head, Pack.Last,
         FreeOf, Pack.IsPkthdr, SameHeader;
    HeadAt(om, c);
    CountedHead(om, c);
    Seen(om, c);
    ghost var p := PackOf(c);
    c' := Trimming.Adj(om, c, n, ps);
    CountedHead(om, c');
    Seen(om, c');
    HeaderKept(om, c', p);
    PoolsSlice(c, |c'|);
  }

  /** os_mbuf_prepend */
  method ApplyPrepend(om: Mbuf, ghost c: seq<Mbuf>, len: nat, ghost ps: Pools)
    returns (r: Mbuf?, ghost c': seq<Mbuf>)
    requires Packet(om, c) && Owned(c, ps)
    modifies c, ps.Keys, FreeBlocks(ps)
    ensures Outcome(old(FreeBlocks(ps)) + Set(c), r, c', null, [], {}, ps)
    ensures old(Counted(c)) ==> Counted(c')
    ensures Effect(Call.Prepend(len), old(PackOf(c)), old(FreeOf(ps)), Packs(r, c'), 0)
  {
    hide Packet, Owned, Set, Bytes, World, FreeBlocks, Counted, U16, Snaps, Content, Pool.Ok, PackOf, PoolsOf,
         Mbuf.Header, Mbuf.TrailingSpace, Mbuf.LeadingSpace, Pack.Bytes, Pack.Header, Pack.Trail, Pack.Lead, Pack.Head,
         Pack.Last, FreeOf, Pack.IsPkthdr, Outcome;
    FreeLists(c, ps);
    HeadAt(om, c);
    CountedHead(om, c);
    Seen(om, c);
    ghost var b, base, stock := |Bytes(c)|, om.pktLen, FreeBlocks(ps) + Set(c);
    ghost var k;
    r, c', k := Prepending.Prepend(om, c, len, ps);
    CountedAfter(r, c', old(Counted(c)), b, base, len);
    NoneCounted();
    if r != null {
      Seen(r, c');
    }
    OutcomeOne(stock, r, c', ps);
  }

  /** os_mbuf_prepend_pullup */
  method ApplyPrependPullup(om: Mbuf, ghost c: seq<Mbuf>, len: uint16, ghost ps: Pools)
    returns (r: Mbuf?, ghost c': seq<Mbuf>)
    requires Packet(om, c) && Owned(c, ps)
    modifies c, ps.Keys, FreeBlocks(ps)
    ensures Outcome(old(FreeBlocks(ps)) + Set(c), r, c', null, [], {}, ps)
    ensures old(Counted(c)) ==> Counted(c')
    ensures Effect(Call.PrependPullup(len), old(PackOf(c)), old(FreeOf(ps)), Packs(r, c'), 0)
  {
    hide Packet, Owned, Set, Bytes, World, FreeBlocks, Counted, U16, Snaps, Content, Pool.Ok, PackOf, PoolsOf,
         Mbuf.Header, Mbuf.TrailingSpace, Mbuf.LeadingSpace, Pack.Bytes, Pack.Header, Pack.Trail, Pack.Lead, Pack.Head,
         Pack.Last, FreeOf, Pack.IsPkthdr, Outcome;
    FreeLists(c, ps);
    HeadAt(om, c);
    CountedHead(om, c);
    Seen(om, c);
    ghost var b, base, stock := |Bytes(c)|, om.pktLen, FreeBlocks(ps) + Set(c);
    r, c' := Pullups.PrependPullup(om, c, len, ps);
    CountedAfter(r, c', old(Counted(c)), b, base, len);
    NoneCounted();
    if r != null {
      Seen(r, c');
    }
    OutcomeOne(stock, r, c', ps);
  }

  /** os_mbuf_pullup */
  method ApplyPullup(om: Mbuf, ghost c: seq<Mbuf>, len: uint16, ghost ps: Pools)
    returns (r: Mbuf?, ghost c': seq<Mbuf>)
    requires Packet(om, c) && Owned(c, ps)
    modifies c, ps.Keys, FreeBlocks(ps)
    ensures Outcome(old(FreeBlocks(ps)) + Set(c), r, c', null, [], {}, ps)
    ensures old(Counted(c)) ==> Counted(c')
    ensures Effect(Call.Pullup(len), old(PackOf(c)), old(FreeOf(ps)), Packs(r, c'), 0)
  {
    hide Packet, Owned, Set, Bytes, World, FreeBlocks, Counted, U16, Snaps, Content, Pool.Ok, PackOf, PoolsOf,
         Mbuf.Header, Mbuf.TrailingSpace, Mbuf.LeadingSpace, Pack.Bytes, Pack.Header, Pack.Trail, Pack.Lead, Pack.Head,
         Pack.Last, FreeOf, Pack.IsPkthdr, Outcome, FrontEnds;
    FreeLists(c, ps);
    HeadAt(om, c);
    CountedHead(om, c);
    Seen(om, c);
    FreePools(ps, om.pool);
    ghost var b, base, stock := |Bytes(c)|, om.pktLen, FreeBlocks(ps) + Set(c);
    ghost var z;
    r, c', z := Pullups.Pullup(om, c, len, ps);
    U16Same(base);
    CountedAfter(r, c', old(Counted(c)), b, base, 0);
    NoneCounted();
    if r != null {
      Seen(r, c');
      if old(om.len) < len {
        PulledPools(c, c', r, old(Snaps(c)), len, z);
      }
    }
    OutcomeOne(stock, r, c', ps);
  }

  lemma PulledPools(c: seq<Mbuf>, c': seq<Mbuf>, r: Mbuf, s: seq<Buf>, n: nat, z: nat)
    requires FrontEnds(s, n, z) && |s| == |c| && c' == [r] + c[z..]
    ensures z <= |PoolsOf(c)| && PoolsOf(c') == [r.pool] + PoolsOf(c)[z..]
  {
    PoolsSlice(c, z);
    PoolsConcat([r], c[z..]);
  }

  /** os_mbuf_trim_front */
  method ApplyTrim(om: Mbuf, ghost c: seq<Mbuf>, ghost ps: Pools) returns (r: Mbuf, ghost c': seq<Mbuf>)
    requires Packet(om, c) && Owned(c, ps)
    modifies c, ps.Keys, FreeBlocks(ps)
    ensures Packet(r, c') && Owned(c', ps) && FreeBlocks(ps) + Set(c') == old(FreeBlocks(ps)) + Set(c)
    ensures old(Counted(c)) ==> Counted(c')
    ensures Effect(Call.TrimFront, old(PackOf(c)), old(FreeOf(ps)), [PackOf(c')], 0)
  {
    hide Packet, Owned, Set, Bytes, World, FreeBlocks, Counted, U16, Snaps, Content, Pool.Ok, PackOf, PoolsOf,
         Mbuf.Header, Mbuf.TrailingSpace, Mbuf.LeadingSpace, Pack.Bytes, Pack.Header, Pack.Trail, Pack.Lead, Pack.Head,
         Pack.Last, FreeOf, Pack.IsPkthdr, SameHeader, FrontTrimmed, FirstData,
         FrontPools, At;
    HeadAt(om, c);
    CountedHead(om, c);
    Seen(om, c);
    SnapsAt(c);
    ghost var b, base, s, p := |Bytes(c)|, om.pktLen, Snaps(c), PackOf(c);
    ghost var z;
    r, c', z := Trimming.TrimFront(om, c, ps);
    U16Same(base);
    CountedAfter(r, c', old(Counted(c)), b, base, 0);
    Seen(r, c');
    HeaderKept(r, c', p);
    PoolsBehind(om, c, c', z, z < |s| && s[z].off >= s[0].pkthdrLen);
    FirstIs(s, z);
    TrimIs(p, PackOf(c'), z);
  }

  lemma FirstIs(s: seq<Buf>, z: nat)
    requires z <= |s| && (forall j | 0 <= j < z :: s[j].len == 0) && (z < |s| ==> s[z].len != 0)
    ensures FirstData(s, z)
  {
  }

  /** os_mbuf_free_chain */
  method ApplyFree(om: Mbuf, ghost c: seq<Mbuf>, ghost ps: Pools)
    requires Packet(om, c) && Owned(c, ps)
    modifies c, ps.Keys, FreeBlocks(ps)
    ensures Outcome(old(FreeBlocks(ps)) + Set(c), null, [], null, [], {}, ps)
    ensures Effect(Call.FreeChain, old(PackOf(c)), old(FreeOf(ps)), [], 0)
  {
    hide Packet, Owned, Set, Bytes, World, FreeBlocks, Outcome;
    FollowAt(om, c, 0);
    OwnedApart(c, ps);
    ghost var stock := FreeBlocks(ps) + Set(c);
    Mbufs.FreeChain(om, c, ps);
    EmptyChain(ps);
    OutcomeOne(stock, null, [], ps);
  }

  /** os_mbuf_copyinto: the header stays right in the safe cases. */
  method ApplyCopy(om: Mbuf, ghost c: seq<Mbuf>, off: nat, data: seq<byte>, ghost ps: Pools)
    returns (ghost c': seq<Mbuf>)
    requires Packet(om, c) && Owned(c, ps)
    modifies c, ps.Keys, FreeBlocks(ps)
    ensures Packet(om, c') && Owned(c', ps) && FreeBlocks(ps) + Set(c') == old(FreeBlocks(ps)) + Set(c)
    ensures old(Counted(c)) && old(CopySafe(c, off, |data|)) ==> Counted(c')
    ensures Effect(Call.CopyInto(off, data), old(PackOf(c)), old(FreeOf(ps)), [PackOf(c')], 0)
  {
    hide Packet, Owned, Set, Bytes, World, FreeBlocks, Counted, U16, Overwrite, Snaps, Room, CopiedLen, Tally, Content,
         PackOf, PoolsOf, Mbuf.Header, Mbuf.TrailingSpace, Mbuf.LeadingSpace, Pack.Bytes, Pack.Header, Pack.Trail,
         Pack.Lead, Pack.Head, Pack.Last, FreeOf, Pack.IsPkthdr, Needed, Times, SameHeader;
    FreeLists(c, ps);
    HeadAt(om, c);
    CountedHead(om, c);
    CountedSnaps(om, c);
    Seen(om, c);
    RoomIs(c, c[|c| - 1].pool);
    FreePools(ps, c[|c| - 1].pool);
    ghost var b, base, p, free, F := Bytes(c), om.pktLen, PackOf(c), FreeOf(ps), c[|c| - 1].pool.free;
    var rc;
    ghost var n, k;
    rc, c', n, k := Overwriting.CopyInto(om, c, off, data, ps);
    if rc == -1 {
      CountedSnaps(om, c);
      Seen(om, c);
      assert PackOf(c) == p;
    } else {
      CopiedSize(b, off, data, n);
      CountedHead(om, c');
      U16Add(|b|, n);
      CopiedRight(|b|, off, |data|, |c| == 1);
      Seen(om, c');
      HeaderKept(om, c', p);
      PoolsMore(c, F, k, c[|c| - 1].pool);
      CopiedIs(p, free, off, data, PackOf(c'), n);
    }
  }

  lemma CopiedSize(b: seq<byte>, off: nat, data: seq<byte>, n: nat)
    requires off <= |b| && n <= Beyond(|b|, off, |data|)
    ensures |Overwrite(b, off, data[..|data| - Beyond(|b|, off, |data|) + n])| == |b| + n
  {
  }

  lemma CopiedRight(n: nat, off: nat, len: nat, single: bool)
    requires off <= n
    ensures off + len <= n || off == n || (single && off + len < 0x1_0000) ==>
              CopiedLen(U16(n), n, off, len, single) == U16(n + U16(Beyond(n, off, len)))
    ensures U16(0) == 0
  {
    var rest := Beyond(n, off, len);
    U16Same(n);
    U16Same(rest);
    U16Same(n + rest);
    U16Same(n + U16(rest));
    U16Add(rest, n);
  }

  /** The calls that take one packet and give at most one back. */
  method ApplySimple(om: Mbuf, ghost c: seq<Mbuf>, call: Call, ghost ps: Pools)
    returns (r: Mbuf?, ghost c': seq<Mbuf>)
    requires Packet(om, c) && Owned(c, ps) && !call.Widen? && !call.Dup? && !call.SplitFrag?
    modifies c, ps.Keys, FreeBlocks(ps)
    ensures Outcome(old(FreeBlocks(ps)) + Set(c), r, c', null, [], {}, ps)
    ensures old(Counted(c)) && (call.CopyInto? ==> old(CopySafe(c, call.off, |call.data|))) ==> Counted(c')
    ensures Effect(call, old(PackOf(c)), old(FreeOf(ps)), Packs(r, c'), 0)
  {
    hide Packet, Owned, Set, Bytes, World, FreeBlocks, Outcome, Counted, U16, PackOf, FreeOf, Effect, CopySafe;
    ghost var stock := FreeBlocks(ps) + Set(c);
    r := om;
    match call {
      case Append(data) =>
        c' := ApplyAppend(om, c, data, ps);
        OutcomeOne(stock, r, c', ps);
      case Adj(n) =>
        c' := ApplyAdj(om, c, n, ps);
        OutcomeOne(stock, r, c', ps);
      case Prepend(len) =>
        r, c' := ApplyPrepend(om, c, len, ps);
      case PrependPullup(len) =>
        r, c' := ApplyPrependPullup(om, c, len, ps);
      case CopyInto(off, data) =>
        c' := ApplyCopy(om, c, off, data, ps);
        OutcomeOne(stock, r, c', ps);
      case Pullup(len) =>
        r, c' := ApplyPullup(om, c, len, ps);
      case TrimFront =>
        r, c' := ApplyTrim(om, c, ps);
        OutcomeOne(stock, r, c', ps);
      case FreeChain =>
        ApplyFree(om, c, ps);
        r, c' := null, [];
        NoneCounted();
    }
  }

  /** Whether copies of all buffers fit buffers of the first one's pool, which os_mbuf_dup takes for granted. */
  method CheckFits(om: Mbuf, ghost c: seq<Mbuf>) returns (b: bool)
    requires Packet(om, c)
    ensures b <==> DupFits(c)
  {
    hide Linked, Snaps, Sound;
    HeadAt(om, c);
    var cur: Mbuf? := om;
    ghost var i := 0;
    while cur != null
      invariant i <= |c| && cur == At(c, i) && forall j | 0 <= j < i :: c[j].off + c[j].len <= om.pool.databufLen
      decreases |c| - i
    {
      FollowAt(om, c, i);
      if cur.off + cur.len > om.pool.databufLen {
        return false;
      }
      cur, i := cur.next, i + 1;
    }
    return true;
  }

  /** Position `sub` of the i-th buffer is offset `off` of the packet. */
  ghost predicate Located(c: seq<Mbuf>, i: nat, sub: nat, off: nat)
    reads c
  {
    && i < |c| && sub <= c[i].len && (sub == c[i].len ==> i == |c| - 1)
    && off == |Content(Snaps(c)[..i])| + sub
  }

  /** A gap of len bytes at offset `off` does not make os_mbuf_widen spill into buffers it then cuts off. */
  ghost predicate WidenSafe(om: Mbuf, c: seq<Mbuf>, off: nat, len: nat)
    reads c
  {
    forall i: nat, sub: nat | Located(c, i, sub, off) ::
      om.pool.databufLen > 0 && WidenKeeps(c[i], sub, len, om.pool.databufLen)
  }

  /** os_mbuf_widen, with the edge buffer as it was before. */
  method WidenSeen(om: Mbuf, ghost c: seq<Mbuf>, off: nat, len: uint16, ghost ps: Pools)
    returns (rc: int, ghost c': seq<Mbuf>, ghost leaked: seq<Mbuf>, ghost gap: seq<byte>, ghost i: nat, ghost sub: nat)
    requires Packet(om, c) && Owned(c, ps)
    modifies c, ps.Keys, om.pool.free
    ensures World(ps) && om.pool.databufLen > 0 && OfOne(leaked, om.pool)
    ensures off > |old(Bytes(c))| ==> rc != 0
    ensures rc != 0 ==>
        && c' == c && leaked == [] && Packet(om, c) && Owned(c, ps) && Bytes(c) == old(Bytes(c))
        && Snaps(c) == old(Snaps(c)) && FreeBlocks(ps) == old(FreeBlocks(ps)) && om.pktLen == old(om.pktLen)
    ensures rc == 0 ==>
        && Packet(om, c') && Owned(c', ps) && |gap| == len
        && FreeBlocks(ps) + Set(c') + Set(leaked) == old(FreeBlocks(ps)) + Set(c) && Set(leaked) !! Set(c')
        && Set(leaked) !! FreeBlocks(ps) && om.pkthdrLen == old(om.pkthdrLen) && om.Header() == old(om.Header())
        && om.pktLen == if om.IsPkthdr() then U16(old(om.pktLen) + len) else old(om.pktLen)
    ensures off <= |old(Bytes(c))| ==>
        var s, d := old(Snaps(c)), om.pool.databufLen;
        && i < |s| && sub <= s[i].len && Places(s, i, sub, off)
        && var t, room := s[i].len - sub, s[i].cap - s[i].off - s[i].len;
           && (rc == 0 <==> room >= len || len + t <= Capacity(|old(om.pool.free)|, d))
           && (rc == 0 ==>
                 && (leaked == [] <==> room >= len || t <= GapRoom(len, d))
                 && (room >= len ==> c' == c)
                 && (room < len ==> WidenTakes(|c'| - |c|, |leaked|, t, len, d))
                 && Widened(Bytes(c'), old(Bytes(c)), off, t, gap, leaked == [], GapRoom(len, d)))
  {
    hide Packet, Owned, Bytes, World, FreeBlocks, Set, Snaps, Content, Widened, Capacity, U16, Mbuf.Header, WidenTakes,
         GapRoom;
    SnapsAt(c);
    rc, c', leaked, gap, i, sub := Widening.Widen(om, c, off, len, ps);
  }

  /** os_mbuf_widen on values. */
  method WidenPacks(om: Mbuf, ghost c: seq<Mbuf>, off: nat, len: uint16, ghost ps: Pools)
    returns (rc: int, ghost c': seq<Mbuf>, ghost leaked: seq<Mbuf>)
    requires Packet(om, c) && Owned(c, ps)
    modifies c, ps.Keys, om.pool.free
    ensures World(ps) && OfOne(leaked, om.pool) && Packet(om, c') && Owned(c', ps)
    ensures FreeBlocks(ps) + Set(c') + Set(leaked) == old(FreeBlocks(ps)) + Set(c) && Set(leaked) !! Set(c')
        && Set(leaked) !! FreeBlocks(ps)
    ensures Effect(Call.Widen(off, len), old(PackOf(c)), old(FreeOf(ps)), [PackOf(c')], |leaked|)
    ensures leaked == [] ==> |Bytes(c')| == |old(Bytes(c))| + if rc == 0 then len else 0
    ensures om.pktLen == if rc == 0 && om.IsPkthdr() then U16(old(om.pktLen) + len) else old(om.pktLen)
    ensures om.pkthdrLen == old(om.pkthdrLen)
    ensures old(WidenSafe(om, c, off, len)) ==> leaked == []
  {
    hide Packet, Owned, Bytes, World, FreeBlocks, Snaps, Content, Widened, Capacity, U16, PackOf, PoolsOf, Mbuf.Header,
         Pack.Bytes, Pack.Header, Pack.Trail, Pack.Lead, Pack.Head, Pack.Last, FreeOf, WidenTakes, GapMade, GapRoom,
         Places, WidenSafe, Set, Grows, SameHeader;
    HeadAt(om, c);
    PoolsOk(c, ps, om.pool);
    EmptyChain(ps);
    Seen(om, c);
    SafeKeeps(om, c, off, len);
    ghost var p, free, s := PackOf(c), FreeOf(ps), Snaps(c);
    ghost var gap, i, sub;
    rc, c', leaked, gap, i, sub := WidenSeen(om, c, off, len, ps);
    Seen(om, c');
    if rc != 0 {
      OwnedApart(c, ps);
      assert PackOf(c') == p;
    } else {
      GrowsIs(om, c', p, len);
      if leaked == [] {
        KeptLength(Bytes(c'), p.Bytes(), off, s[i].len - sub, gap, GapRoom(len, om.pool.databufLen));
      }
    }
    if off <= |p.Bytes()| {
      GapIs(p, free, off, len, i, sub, PackOf(c'), |leaked|, gap);
    } else {
      GapNone(p, free, off, len);
    }
  }

  /** os_mbuf_widen */
  method ApplyWiden(om: Mbuf, ghost c: seq<Mbuf>, off: nat, len: uint16, ghost ps: Pools)
    returns (ghost c': seq<Mbuf>, ghost lost: set<Mbuf>)
    requires Packet(om, c) && Owned(c, ps)
    modifies c, ps.Keys, FreeBlocks(ps)
    ensures Outcome(old(FreeBlocks(ps)) + Set(c), om, c', null, [], lost, ps)
    ensures old(WidenSafe(om, c, off, len)) ==> lost == {} && (old(Counted(c)) ==> Counted(c'))
    ensures Effect(Call.Widen(off, len), old(PackOf(c)), old(FreeOf(ps)), [PackOf(c')], |lost|)
    ensures forall m | m in lost :: m.pool == om.pool
  {
    hide Packet, Owned, Bytes, World, FreeBlocks, Counted, U16, PackOf, FreeOf, WidenSafe, Outcome, Set, Effect;
    FreeLists(c, ps);
    HeadAt(om, c);
    CountedHead(om, c);
    ghost var b, base, stock := |Bytes(c)|, om.pktLen, FreeBlocks(ps) + Set(c);
    U16Same(base);
    var rc;
    ghost var leaked;
    rc, c', leaked := WidenPacks(om, c, off, len, ps);
    lost := Set(leaked);
    CountOfOne(leaked, om.pool);
    InList(leaked);
    OutcomeLost(stock, om, c', lost, ps);
    if leaked == [] {
      CountedAfter(om, c', old(Counted(c)), b, base, if rc == 0 then len else 0);
    }
  }

  lemma InList(f: seq<Mbuf>)
    ensures (forall m | m in Set(f) :: exists i :: 0 <= i < |f| && f[i] == m) && (f == [] <==> Set(f) == {})
  {
    if f != [] {
      assert f[0] in Set(f);
    }
  }

  lemma OutcomeLost(stock: set<Mbuf>, r: Mbuf, c: seq<Mbuf>, lost: set<Mbuf>, ps: Pools)
    requires Packet(r, c) && Owned(c, ps) && FreeBlocks(ps) + Set(c) + lost == stock
    requires lost !! Set(c) && lost !! FreeBlocks(ps)
    ensures Outcome(stock, r, c, null, [], lost, ps)
  {
    hide Packet, World, FreeBlocks;
    OwnedApart(c, ps);
    EmptyChain(ps);
  }

  lemma SafeKeeps(om: Mbuf, c: seq<Mbuf>, off: nat, len: nat)
    ensures WidenSafe(om, c, off, len) ==>
              forall i: nat, sub: nat | Places(Snaps(c), i, sub, off) ::
                var e, d := Snaps(c)[i], om.pool.databufLen;
                d > 0 && (e.cap - e.off - e.len >= len || e.len - sub <= GapRoom(len, d))
  {
    hide Snaps, Content, GapRoom;
    SnapsAt(c);
    forall i: nat, sub: nat | Places(Snaps(c), i, sub, off) ensures Located(c, i, sub, off) {
    }
  }

  lemma KeptLength(b': seq<byte>, b: seq<byte>, off: nat, t: nat, gap: seq<byte>, room: nat)
    requires Widened(b', b, off, t, gap, true, room)
    ensures |b'| == |b| + |gap|
  {
  }

  lemma DupSeen(p: Pack, free: Free, om: Mbuf, c: seq<Mbuf>, r: Mbuf, e: seq<Mbuf>)
    requires p.Has() && Fits(p) && p.pools[0] == om.pool && om.pool in free && free[om.pool] >= |p.bufs| == |c|
    requires Packet(r, e) && |e| == |c| && CopiesOf(p.bufs, Snaps(e)) && Bytes(e) == p.Bytes() && OfOne(e, om.pool)
    ensures Duplicated(p, free, [p, PackOf(e)])
  {
    hide Packet, Bytes, Snaps, CopiesOf, PackOf, PoolsOf, Pack.Bytes, Pack.Header, Content, Duplicated, Fits, OfOne;
    Seen(r, e);
    OneTimes(e, om.pool);
    DupIs(p, free, PackOf(e));
  }

  /** os_mbuf_dup on values. */
  method DupPacks(om: Mbuf, ghost c: seq<Mbuf>, ghost ps: Pools) returns (r: Mbuf?, ghost e: seq<Mbuf>)
    requires Packet(om, c) && Owned(c, ps)
    modifies ps.Keys, om.pool.free
    ensures World(ps) && Packet(om, c) && Owned(c, ps) && Snaps(c) == old(Snaps(c))
    ensures Packet(r, e) && Owned(e, ps) && Set(c) !! Set(e)
    ensures FreeBlocks(ps) + Set(c) + Set(e) == old(FreeBlocks(ps)) + Set(c)
    ensures r != null ==> |e| == |c| && CopiesOf(Snaps(c), Snaps(e))
    ensures Effect(Call.Dup, old(PackOf(c)), old(FreeOf(ps)), [PackOf(c)] + Packs(r, e), 0)
  {
    hide Packet, Owned, Set, Bytes, World, FreeBlocks, DupFits, Snaps, CopiesOf, PackOf, PoolsOf, FreeOf, Pack.Bytes,
         Pack.Header, Content, Duplicated, Fits, OfOne;
    HeadAt(om, c);
    PoolsOk(c, ps, om.pool);
    Seen(om, c);
    FreePools(ps, om.pool);
    FitsSeen(c);
    ghost var p, free, F := PackOf(c), FreeOf(ps), om.pool.free;
    OwnedApart(c, ps);
    EmptyChain(ps);
    r, e := null, [];
    var fits := CheckFits(om, c);
    if fits {
      r, e := Duplicating.Dup(om, c, ps);
      Seen(om, c);
      if r == null {
        e := [];
        EmptyChain(ps);
        OwnedAgain(c, ps);
      } else {
        OwnedApart(e, ps);
        OwnedAgain(c, ps);
        OneTaken(F, |c|, om.pool);
        DupSeen(p, free, om, c, r, e);
      }
    }
    assert PackOf(c) == p;
    DupNone(p, free, fits && r != null);
    assert [p] + Packs(r, e) == if r == null then [p] else [p, PackOf(e)];
  }

  /** os_mbuf_dup */
  method ApplyDup(om: Mbuf, ghost c: seq<Mbuf>, ghost ps: Pools) returns (r: Mbuf?, ghost e: seq<Mbuf>)
    requires Packet(om, c) && Owned(c, ps)
    modifies c, ps.Keys, FreeBlocks(ps)
    ensures Outcome(old(FreeBlocks(ps)) + Set(c), om, c, r, e, {}, ps)
    ensures old(Counted(c)) ==> Counted(c) && Counted(e)
    ensures Effect(Call.Dup, old(PackOf(c)), old(FreeOf(ps)), [PackOf(c)] + Packs(r, e), 0)
  {
    hide Packet, Owned, Set, Bytes, World, FreeBlocks, Outcome, Snaps, CopiesOf, Counted, Tally, PackOf, FreeOf, Effect;
    FreeLists(c, ps);
    CountedSnaps(om, c);
    NoneCounted();
    ghost var stock := FreeBlocks(ps) + Set(c);
    HeadAt(om, c);
    r, e := DupPacks(om, c, ps);
    if r != null {
      CountedSnaps(r, e);
      SameTally(Snaps(c), Snaps(e));
    } else {
      NoChain(e);
    }
    CountedSnaps(om, c);
    OutcomeTwo(stock, om, c, r, e, ps);
  }

  lemma NoChain(e: seq<Mbuf>)
    requires Packet(null, e)
    ensures e == []
  {
    hide Snaps, Sound;
  }

  lemma FitsSeen(c: seq<Mbuf>)
    requires c != []
    ensures DupFits(c) <==> Fits(PackOf(c))
  {
    hide Snaps;
    SnapsAt(c);
  }

  /** Whether the first buffer's header states the length of the whole list. */
  predicate Tally(s: seq<Buf>) {
    s != [] && s[0].pkthdrLen >= PKTHDR_SIZE ==> s[0].pktLen == U16(|Content(s)|)
  }

  lemma CountedSnaps(om: Mbuf, c: seq<Mbuf>)
    requires Packet(om, c)
    ensures Counted(c) <==> Tally(Snaps(c))
  {
    hide Content, U16, Linked, Sound;
    HeadAt(om, c);
    SnapAt(c, 0);
  }

  lemma SameTally(s: seq<Buf>, t: seq<Buf>)
    requires CopiesOf(s, t) && |s| == |t|
    ensures Tally(s) ==> Tally(t)
  {
    hide Content, U16, Alike;
    if s != [] {
      CopiesSame(s, t);
      HeaderAlike(s[0], t[0]);
    }
  }

  lemma HeaderAlike(a: Buf, b: Buf)
    requires Alike(a, b)
    ensures a.pkthdrLen == b.pkthdrLen && (a.pkthdrLen > 0 ==> a.pktLen == b.pktLen)
  {
  }

  lemma OneTaken(f: seq<Mbuf>, k: nat, q: Pool)
    requires OfOne(f, q) && k <= |f|
    ensures OfOne(f[..k], q)
  {
  }

  lemma OneTimes(f: seq<Mbuf>, q: Pool)
    requires OfOne(f, q)
    ensures PoolsOf(f) == Times(q, |f|)
  {
  }

  lemma SplitSeen(p: Pack, free: Free, om: Mbuf, c: seq<Mbuf>, max: uint16, q: Pool, userLen: nat, r: Mbuf,
                  c': seq<Mbuf>, r2: Mbuf, c2: seq<Mbuf>, z: nat)
    requires p.Has() && c != [] && om == c[0] && |p.bufs| == |c| && p.pools == PoolsOf(c) && p.IsPkthdr() && q in free
    requires var h := PKTHDR_SIZE + userLen;
             h <= q.databufLen && h <= 0xff && h + max <= free[q] * q.databufLen && Needed(|c'|, h + max, q.databufLen)
    requires p.Head().pktLen > max && |p.Bytes()| >= max
    requires Packet(r, c') && r.IsPkthdr() && r.pktLen == max && Bytes(c') == p.Bytes()[..max] && OfOne(c', q)
    requires Packet(r2, c2) && Bytes(c2) == p.Bytes()[max..] && r2.pktLen == p.Head().pktLen - max
    requires r2.Header() == p.Header() && r2.pkthdrLen == p.Head().pkthdrLen
    requires var s := p.bufs;
             && z <= |c| && |Content(s[..z])| <= max && (z < |c| ==> max < |Content(s[..z + 1])|)
             && c2 == if z == 0 then c
                      else if z == |c| then [om]
                      else if s[z].off + max - |Content(s[..z])| >= p.Head().pkthdrLen then c[z..]
                      else [om] + c[z..]
    ensures SplitOff(p, free, max, q, userLen, [PackOf(c'), PackOf(c2)])
  {
    hide Packet, Bytes, Snaps, Content, PackOf, PoolsOf, Pack.Bytes, Pack.Header, SplitOff, Needed, CutIn, SameHeader,
         FrontPools, Times, OfOne, Mbuf.Header;
    var s := p.bufs;
    Seen(r, c');
    Seen(r2, c2);
    HeaderKept(r2, c2, p);
    OneTimes(c', q);
    PoolsBehind(om, c, c2, z, z < |s| && s[z].off + max - |Content(s[..z])| >= p.Head().pkthdrLen);
    CutHere(s, max, z);
    SplitIs(p, free, max, q, userLen, PackOf(c'), PackOf(c2), z);
  }

  /** mem_split_frag on values. */
  method SplitPacks(om: Mbuf, ghost c: seq<Mbuf>, max: uint16, pool: Pool, userLen: nat, ghost ps: Pools)
    returns (r: Mbuf?, ghost c': seq<Mbuf>, r2: Mbuf?, ghost c2: seq<Mbuf>)
    requires Packet(om, c) && Owned(c, ps) && pool in ps && userLen < 0x100 && om.IsPkthdr()
    modifies c, ps.Keys, pool.free
    ensures World(ps) && Set(c') !! Set(c2) && Owned(c', ps) && Owned(c2, ps) && Packet(r, c') && Packet(r2, c2)
    ensures FreeBlocks(ps) + Set(c') + Set(c2) == old(FreeBlocks(ps)) + Set(c)
    ensures r == null || r2 == null ==>
        && om.pktLen == old(om.pktLen) && Bytes(c) == old(Bytes(c)) && om.IsPkthdr() && Packet(om, c)
        && if r == null then r2 == om && c2 == c && c' == [] else r == om && c' == c && c2 == []
    ensures r != null && r2 != null ==>
        && r.IsPkthdr() && r.pktLen == max == |Bytes(c')| && r2.pktLen == old(om.pktLen) - max
        && |Bytes(c2)| == |old(Bytes(c))| - max
    ensures Effect(Call.SplitFrag(max, pool, userLen), old(PackOf(c)), old(FreeOf(ps)), Packs(r, c') + Packs(r2, c2), 0)
  {
    hide Packet, Owned, Set, Bytes, World, FreeBlocks, CanHold, U16, Snaps, Content, PackOf, PoolsOf, FreeOf,
         Pack.Bytes, Pack.Header, SplitOff, Needed, OfOne;
    Seen(om, c);
    OwnedApart(c, ps);
    FreePools(ps, pool);
    HoldsSeen(pool, userLen, max, ps);
    ghost var p, free, F, s := PackOf(c), FreeOf(ps), pool.free, Snaps(c);
    HeadAt(om, c);
    SplitNone(p, free, max, pool, userLen);
    ghost var z;
    r, c', r2, c2, z := Fragments.SplitFrag(om, c, max, pool, userLen, ps);
    EmptyChain(ps);
    if r == null || r2 == null {
      Seen(om, c);
      assert PackOf(c) == p;
    } else {
      OneTaken(F, |c'|, pool);
      SplitSeen(p, free, om, c, max, pool, userLen, r, c', r2, c2, z);
    }
    assert Packs(r, c') + Packs(r2, c2) ==
           if r == null then Packs(r2, c2) else if r2 == null then [PackOf(c')] else [PackOf(c'), PackOf(c2)];
  }

  /** mem_split_frag */
  method ApplySplit(om: Mbuf, ghost c: seq<Mbuf>, max: uint16, pool: Pool, userLen: nat, ghost ps: Pools)
    returns (r: Mbuf?, ghost c': seq<Mbuf>, r2: Mbuf?, ghost c2: seq<Mbuf>)
    requires Packet(om, c) && Owned(c, ps) && pool in ps && userLen < 0x100
    modifies c, ps.Keys, FreeBlocks(ps)
    ensures Outcome(old(FreeBlocks(ps)) + Set(c), r, c', r2, c2, {}, ps)
    ensures old(Counted(c)) ==> Counted(c') && Counted(c2)
    ensures Effect(Call.SplitFrag(max, pool, userLen), old(PackOf(c)), old(FreeOf(ps)), Packs(r, c') + Packs(r2, c2), 0)
  {
    hide Packet, Owned, Set, Bytes, World, FreeBlocks, Outcome, Counted, U16, PackOf, FreeOf, SplitOff, Pack.Bytes;
    FreeLists(c, ps);
    NoneCounted();
    Seen(om, c);
    ghost var stock, b, base := FreeBlocks(ps) + Set(c), |Bytes(c)|, om.pktLen;
    HeadAt(om, c);
    CountedHead(om, c);
    EmptyChain(ps);
    r, c', r2, c2 := om, c, null, [];
    SplitNone(PackOf(c), FreeOf(ps), max, pool, userLen);
    assert Packs(om, c) + [] == [PackOf(c)];
    if om.IsPkthdr() {
      r, c', r2, c2 := SplitPacks(om, c, max, pool, userLen, ps);
      U16Same(max);
      U16Same(0);
      U16Same(base - max);
      ghost var less: int := max;
      if r == null || r2 == null {
        CountedHead(om, c);
      } else {
        CountedAfter(r, c', true, 0, 0, max);
        CountedAfter(r2, c2, old(Counted(c)), b, base, -less);
      }
    }
    OutcomeTwo(stock, r, c', r2, c2, ps);
  }

  lemma HoldsSeen(q: Pool, userLen: nat, n: nat, ps: Pools)
    requires q in ps
    ensures var h := PKTHDR_SIZE + userLen;
            CanHold(q, userLen, n) <==>
              h <= q.databufLen && h <= 0xff && h + n <= FreeOf(ps)[q] * q.databufLen
  {
  }

  lemma CutHere(s: seq<Buf>, n: nat, z: nat)
    requires z <= |s| && |Content(s[..z])| <= n && (z < |s| ==> n < |Content(s[..z + 1])|)
    ensures CutIn(s, n, z)
  {
  }

  /** The two calls that do not always keep blocks and headers right, in the cases in which they do. */
  ghost predicate Safe(om: Mbuf, c: seq<Mbuf>, call: Call)
    reads c, LastPool(c)
  {
    match call
    case Widen(off, gap) => WidenSafe(om, c, off, gap)
    case CopyInto(off, data) => CopySafe(c, off, |data|)
    case _ => true
  }

  lemma MostlySafe(om: Mbuf, c: seq<Mbuf>, call: Call)
    ensures !call.Widen? && !call.CopyInto? ==> Safe(om, c, call)
  {
  }

  lemma LocatedWithin(om: Mbuf, c: seq<Mbuf>, i: nat, sub: nat, off: nat)
    requires Packet(om, c) && Located(c, i, sub, off)
    ensures off <= |Bytes(c)|
  {
    hide Packet, Bytes, Content, Snaps;
    Upto(om, c, i, sub);
  }

  lemma LocatedBefore(om: Mbuf, c: seq<Mbuf>, i: nat, sub: nat, j: nat, t: nat, off: nat)
    requires Packet(om, c) && Located(c, i, sub, off) && Located(c, j, t, off)
    ensures i >= j
  {
    hide Packet, Content, Snaps;
    if i < j {
      var s := Snaps(c);
      Upto(om, c, i, sub);
      assert s[..j] == s[..i + 1] + s[i + 1..j];
      ContentConcat(s[..i + 1], s[i + 1..j]);
    }
  }

  /** An offset lies at one place of a packet only. */
  lemma LocatedOnce(om: Mbuf, c: seq<Mbuf>, i: nat, sub: nat, off: nat)
    requires Packet(om, c) && Located(c, i, sub, off)
    ensures forall j: nat, t: nat | Located(c, j, t, off) :: i == j && sub == t
  {
    hide Packet, Content, Snaps;
    forall j: nat, t: nat | Located(c, j, t, off) ensures i == j && sub == t {
      LocatedBefore(om, c, i, sub, j, t, off);
      LocatedBefore(om, c, j, t, i, sub, off);
    }
  }

  /** A program can tell before the call whether it is a safe one. */
  method CheckSafe(om: Mbuf, ghost c: seq<Mbuf>, call: Call, ghost ps: Pools) returns (b: bool)
    requires Packet(om, c) && Owned(c, ps)
    ensures b <==> Safe(om, c, call)
  {
    match call {
      case Widen(off, gap) => b := CheckWiden(om, c, off, gap, ps);
      case CopyInto(off, data) => b := CheckCopy(om, c, off, |data|, ps);
      case _ => b := true;
    }
  }

  method CheckWiden(om: Mbuf, ghost c: seq<Mbuf>, off: nat, gap: nat, ghost ps: Pools) returns (b: bool)
    requires Packet(om, c) && Owned(c, ps)
    ensures b <==> WidenSafe(om, c, off, gap)
  {
    hide Packet, Owned, Bytes, Content, Snaps, Located, GapRoom, Mbuf.TrailingSpace;
    HeadAt(om, c);
    PoolsOk(c, ps, om.pool);
    var edge, sub, i := Cursors.Off(om, c, off);
    if edge == null {
      forall j: nat, t: nat | Located(c, j, t, off) ensures false {
        LocatedWithin(om, c, j, t, off);
      }
      return true;
    }
    LocatedAt(c, i, sub, off);
    LocatedOnce(om, c, i, sub, off);
    b := edge.TrailingSpace() >= gap || edge.len - sub <= GapRoom(gap, om.pool.databufLen);
  }

  lemma LocatedAt(c: seq<Mbuf>, i: nat, sub: nat, off: nat)
    requires i < |c| && sub <= c[i].len && (sub == c[i].len ==> i == |c| - 1)
    requires off == |Content(Snaps(c)[..i])| + sub
    ensures Located(c, i, sub, off)
  {
  }

  method CheckCopy(om: Mbuf, ghost c: seq<Mbuf>, off: nat, len: nat, ghost ps: Pools) returns (b: bool)
    requires Packet(om, c) && Owned(c, ps)
    ensures b <==> CopySafe(c, off, len)
  {
    hide Packet, Owned, Bytes, Linked, U16, Mbuf.TrailingSpace;
    HeadAt(om, c);
    FollowAt(om, c, 0);
    var n, last := Measure(om, c);
    PoolsOk(c, ps, last.pool);
    var room := last.TrailingSpace() + Capacity(last.pool.numFree, last.pool.databufLen);
    b := off > n || off + len <= n
         || if om.next == null then off == n || off + len < 0x1_0000 else off == n && U16(len) <= room;
  }

  /** Any call on one packet. */
  method Apply(om: Mbuf, ghost c: seq<Mbuf>, call: Call, ghost ps: Pools)
    returns (r: Mbuf?, ghost c': seq<Mbuf>, r2: Mbuf?, ghost c2: seq<Mbuf>, ghost lost: set<Mbuf>)
    requires Packet(om, c) && Owned(c, ps)
    requires call.SplitFrag? ==> call.pool in ps && call.userLen < 0x100
    modifies c, ps.Keys, FreeBlocks(ps)
    ensures Outcome(old(FreeBlocks(ps)) + Set(c), r, c', r2, c2, lost, ps)
    ensures old(Safe(om, c, call)) ==> lost == {} && (old(Counted(c)) ==> Counted(c') && Counted(c2))
    ensures lost != {} ==> call.Widen?
    ensures Effect(call, old(PackOf(c)), old(FreeOf(ps)), Packs(r, c') + Packs(r2, c2), |lost|)
    ensures forall m | m in lost :: m.pool == om.pool
  {
    hide Packet, Owned, Set, World, FreeBlocks, Outcome, WidenSafe, CopySafe, Counted, Bytes, PackOf, FreeOf, Effect;
    r, c', r2, c2, lost := om, c, null, [], {};
    NoneCounted();
    match call {
      case Widen(off, gap) =>
        c', lost := ApplyWiden(om, c, off, gap, ps);
      case Dup =>
        r2, c2 := ApplyDup(om, c, ps);
      case SplitFrag(max, pool, userLen) =>
        r, c', r2, c2 := ApplySplit(om, c, max, pool, userLen, ps);
      case _ =>
        r, c' := ApplySimple(om, c, call, ps);
    }
    assert Packs(r, c') + [] == Packs(r, c');
  }

  /** os_mbuf_appendfrom */
  method TwoAppend(om: Mbuf, ghost c: seq<Mbuf>, om2: Mbuf, ghost c2: seq<Mbuf>, off: nat, len: nat, ghost ps: Pools)
    returns (ghost c': seq<Mbuf>)
    requires Packet(om, c) && Owned(c, ps) && Packet(om2, c2) && Owned(c2, ps) && Set(c) !! Set(c2)
    modifies c, ps.Keys, FreeBlocks(ps)
    ensures Packet(om, c') && Owned(c', ps) && Packet(om2, c2) && Owned(c2, ps) && Set(c') !! Set(c2)
    ensures FreeBlocks(ps) + Set(c') == old(FreeBlocks(ps)) + Set(c)
    ensures old(Counted(c)) && old(Counted(c2)) ==> Counted(c') && Counted(c2)
    ensures PairEffect(PairCall.AppendFrom(off, len), old(PackOf(c)), old(PackOf(c2)), old(FreeOf(ps)),
                       [PackOf(c'), PackOf(c2)])
  {
    hide Packet, Owned, Set, Bytes, World, FreeBlocks, Counted, U16, Snaps, Content, PackOf, PoolsOf, FreeOf,
         Pack.Bytes, Pack.Header, Pack.Trail, Needed, SameHeader, Grows, Room, Mbuf.Header, Mbuf.TrailingSpace, Times;
    FreeLists(c, ps);
    CountedHead(om, c);
    CountedHead(om2, c2);
    Seen(om, c);
    Seen(om2, c2);
    HeadAt(om, c);
    RoomIs(c, om.pool);
    FreePools(ps, om.pool);
    ghost var b, base, p, free, F := |Bytes(c)|, om.pktLen, PackOf(c), FreeOf(ps), om.pool.free;
    OwnedApart(c2, ps);
    Outside(c2, c, ps);
    PoolsOk(c2, ps, om.pool);
    var rc;
    ghost var n, k;
    rc, c', n, k := ChainCopy.AppendFrom(om, c, om2, c2, off, len, ps);
    CountedAfter(om, c', old(Counted(c)), b, base, n);
    OwnedApart(c', ps);
    OwnedAgain(c2, ps);
    Seen(om, c');
    GrowsIs(om, c', p, n);
    PoolsMore(c, F, k, om.pool);
  }

  /** os_mbuf_concat */
  method TwoConcat(om: Mbuf, ghost c: seq<Mbuf>, om2: Mbuf, ghost c2: seq<Mbuf>, ghost ps: Pools)
    requires Packet(om, c) && Owned(c, ps) && Packet(om2, c2) && Owned(c2, ps) && Set(c) !! Set(c2)
    modifies c, c2
    ensures Packet(om, c + c2) && Owned(c + c2, ps) && Set(c + c2) == Set(c) + Set(c2)
    ensures FreeBlocks(ps) == old(FreeBlocks(ps))
    ensures old(Counted(c)) && old(Counted(c2)) ==> Counted(c + c2)
    ensures PairEffect(PairCall.Concat, old(PackOf(c)), old(PackOf(c2)), old(FreeOf(ps)), [PackOf(c + c2)])
  {
    hide Packet, Owned, Set, Bytes, World, FreeBlocks, Counted, U16, Snaps, Content, PackOf, PoolsOf, FreeOf,
         Pack.Bytes, Pack.Header, SameHeader, Grows, Mbuf.Header;
    CountedHead(om, c);
    CountedHead(om2, c2);
    Seen(om, c);
    Seen(om2, c2);
    HeadAt(om2, c2);
    HeadAt(om, c);
    ghost var p, p2 := PackOf(c), PackOf(c2);
    U16Sum(|Bytes(c)|, |Bytes(c2)|);
    OwnedConcat(c, c2, ps);
    Joining.Concat(om, c, om2, c2);
    CountedHead(om, c + c2);
    Seen(om, c + c2);
    GrowsIs(om, c + c2, p, if p2.IsPkthdr() then p2.Head().pktLen else |p2.Bytes()|);
    PoolsConcat(c, c2);
  }

  /** os_mbuf_pack_chains */
  method TwoPack(om: Mbuf, ghost c: seq<Mbuf>, om2: Mbuf, ghost c2: seq<Mbuf>, ghost ps: Pools)
    returns (r: Mbuf, ghost e: seq<Mbuf>)
    requires Packet(om, c) && Owned(c, ps) && Packet(om2, c2) && Owned(c2, ps) && Set(c) !! Set(c2)
    modifies c, c2, ps.Keys
    ensures Packet(r, e) && Owned(e, ps) && FreeBlocks(ps) + Set(e) == old(FreeBlocks(ps)) + Set(c) + Set(c2)
    ensures old(Counted(c)) && old(Counted(c2)) ==> Counted(e)
    ensures PairEffect(PairCall.PackChains, old(PackOf(c)), old(PackOf(c2)), old(FreeOf(ps)), [PackOf(e)])
  {
    hide Packet, Owned, Set, Bytes, World, FreeBlocks, Counted, U16, Snaps, Content, PackOf, PoolsOf, FreeOf,
         Pack.Bytes, Pack.Header, SameHeader, Grows, Mbuf.Header, PackedUpTo, Joined, Spans.EmptyLast;
    CountedHead(om, c);
    CountedHead(om2, c2);
    Seen(om, c);
    Seen(om2, c2);
    HeadAt(om, c);
    ghost var p, p2 := PackOf(c), PackOf(c2);
    r, e := Packing.PackChains(om, c, om2, c2, ps);
    CountedHead(r, e);
    Seen(r, e);
    GrowsIs(r, e, p, if p2.IsPkthdr() then p2.Head().pktLen else |p2.Bytes()|);
    PackedSeen(r, e);
  }

  lemma PackedSeen(r: Mbuf, e: seq<Mbuf>)
    requires Packet(r, e) && e != [] && PackedUpTo(e, |e| - 1)
    ensures forall j | 0 <= j < |e| - 1 ::
              var b := Snaps(e)[j]; b.off == b.pkthdrLen && b.off + b.len == b.cap
  {
    hide Linked, Snaps;
    SnapsAt(e);
    var s := Snaps(e);
    forall j | 0 <= j < |e| - 1 ensures s[j].off == s[j].pkthdrLen && s[j].off + s[j].len == s[j].cap {
      SoundAt(s, j);
    }
  }

  /** Any call on two packets. */
  method ApplyTwo(om: Mbuf, ghost c: seq<Mbuf>, om2: Mbuf, ghost c2: seq<Mbuf>, call: PairCall, ghost ps: Pools)
    returns (r: Mbuf?, ghost c': seq<Mbuf>, r2: Mbuf?, ghost c2': seq<Mbuf>)
    requires Packet(om, c) && Owned(c, ps) && Packet(om2, c2) && Owned(c2, ps) && Set(c) !! Set(c2)
    modifies c, c2, ps.Keys, FreeBlocks(ps)
    ensures Outcome(old(FreeBlocks(ps)) + Set(c) + Set(c2), r, c', r2, c2', {}, ps)
    ensures old(Counted(c)) && old(Counted(c2)) ==> Counted(c') && Counted(c2')
    ensures PairEffect(call, old(PackOf(c)), old(PackOf(c2)), old(FreeOf(ps)), Packs(r, c') + Packs(r2, c2'))
  {
    hide Packet, Owned, Set, Bytes, World, FreeBlocks, Outcome, Counted, U16, PackOf, FreeOf, PairEffect;
    ghost var stock := FreeBlocks(ps) + Set(c) + Set(c2);
    match call {
      case AppendFrom(off, len) =>
        c' := TwoAppend(om, c, om2, c2, off, len, ps);
        r, r2, c2' := om, om2, c2;
        assert [PackOf(c')] + [PackOf(c2)] == [PackOf(c'), PackOf(c2)];
      case Concat =>
        TwoConcat(om, c, om2, c2, ps);
        r, c', r2, c2' := om, c + c2, null, [];
      case PackChains =>
        r, c' := TwoPack(om, c, om2, c2, ps);
        r2, c2' := null, [];
    }
    NoneCounted();
    OwnedApart(c', ps);
    EmptyChain(ps);
    assert r2 == null ==> [PackOf(c')] + [] == [PackOf(c')];
    OutcomeTwo(stock, r, c', r2, c2', ps);
  }

  /** os_mbuf_get and os_mbuf_get_pkthdr */
  method ApplyNew(pool: Pool, header: bool, n: nat, ghost ps: Pools) returns (r: Mbuf?, ghost c: seq<Mbuf>)
    requires World(ps) && pool in ps && (header ==> n < 0x100)
    modifies ps.Keys, FreeBlocks(ps)
    ensures Outcome(old(FreeBlocks(ps)), r, c, null, [], {}, ps) && Counted(c)
    ensures NewEffect(pool, header, n, old(FreeOf(ps)), Packs(r, c))
  {
    hide Packet, Owned, Set, Bytes, World, FreeBlocks, Outcome, Counted, U16, Snaps, Content, PackOf, PoolsOf, FreeOf,
         Pack.Bytes, Pack.Header;
    EmptyChain(ps);
    NoneCounted();
    U16Same(0);
    FreeLists([], ps);
    ghost var stock := FreeBlocks(ps);
    if header {
      r := GetPkthdr(pool, n, ps);
    } else {
      r := Get(pool, n, ps);
      if r != null {
        SinglePacket(r);
        OwnedSingle(r, ps);
      }
    }
    c := if r == null then [] else [r];
    if r != null {
      CountedHead(r, c);
      Seen(r, c);
    }
    OutcomeOne(stock, r, c, ps);
  }
}
