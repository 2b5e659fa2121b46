// os_mbuf_appendfrom: a range of one chain onto the end of another.
module ChainCopy {
  import opened ByteSeqs
  import opened Bufs
  import opened Mbufs
  import opened Cursors
  import opened Appending

  const OS_EINVAL: int := 2

  /** One round: what is left of the current source buffer goes to the destination. */
  lemma SourceStep(src: Mbuf?, cs: seq<Mbuf>, i: nat, o: nat, n: nat, a: seq<byte>, pos: nat)
    requires Packet(src, cs) && i < |cs| && o <= cs[i].len
    requires pos <= |a| && a[pos..] == Tail(Snaps(cs), i, o) && n <= cs[i].len - o
    ensures |cs[i].Snap().Data()| == cs[i].len && pos + n <= |a|
    ensures cs[i].Snap().Data()[o..o + n] == a[pos..pos + n]
    ensures cs[i].next == At(cs, i + 1)
    ensures n == cs[i].len - o ==> a[pos + n..] == Tail(Snaps(cs), i + 1, 0)
  {
    hide Linked, Snaps, Content, Sound, Buf.Data, Tail;
    var s := Snaps(cs);
    NextAt(src, cs, i);
    SnapAt(cs, i);
    DataLen(s, i);
    TailTake(s, i, o, n);
    assert a[pos..][..n] == a[pos..pos + n] && a[pos..][n..] == a[pos + n..];
    if n == cs[i].len - o {
      TailNext(s, i, o + n);
    }
  }

  lemma NotAmong(cs: seq<Mbuf>, c: seq<Mbuf>, f: seq<Mbuf>, k: nat)
    requires k <= |f| && forall i | 0 <= i < |cs| :: cs[i] !in c && cs[i] !in f
    ensures forall i | 0 <= i < |cs| :: cs[i] !in c + f[..k] && cs[i] !in f[k..]
  {
  }

  /** The header's length field, if there is one, has gone up by n from base. */
  predicate CountedUp(m: Mbuf, base: uint16, n: int)
    reads m`pktLen, m`pkthdrLen
  {
    m.pktLen == if m.IsPkthdr() then U16(base + n) else base
  }

  lemma CountUp(m: Mbuf, base: uint16)
    ensures m.pktLen == base ==> CountedUp(m, base, 0)
  {
    U16Same(base);
  }

  /** Appending n bytes of one source buffer; the source chain stays as it is. a lists the bytes to copy, pos
      of them done. */
  method AppendSlice(dst: Mbuf, ghost c: seq<Mbuf>, ghost src: Mbuf?, ghost cs: seq<Mbuf>, cur: Mbuf, ghost i: nat,
                     o: nat, n: nat,
                     ghost a: seq<byte>, ghost pos: nat, ghost base: uint16, ghost ps: Pools)
    returns (rc: int, ghost c': seq<Mbuf>, ghost m: nat, ghost k: nat, next: Mbuf?)
    requires CountedUp(dst, base, pos)
    requires Packet(dst, c) && c != [] && Owned(c, ps) && Packet(src, cs)
    requires i < |cs| && cur == cs[i] && o + n <= cur.len
    requires pos <= |a| && a[pos..] == Tail(Snaps(cs), i, o)
    requires forall j | 0 <= j < |cs| :: cs[j] !in c && cs[j] !in dst.pool.free
    modifies dst.pool, dst.pool.free, c
    ensures k <= |old(dst.pool.free)| && c' == c + old(dst.pool.free)[..k] && dst.pool.free == old(dst.pool.free)[k..]
    ensures Packet(dst, c') && Owned(c', ps) && Packet(src, cs) && Snaps(cs) == old(Snaps(cs))
    ensures FreeBlocks(ps) + Set(c') == old(FreeBlocks(ps)) + Set(c)
    ensures m == Min(n, old(Room(c, dst.pool))) && Room(c', dst.pool) == old(Room(c, dst.pool)) - m
    ensures pos + n <= |a| && Bytes(c') == old(Bytes(c)) + a[pos..pos + n][0..m]
    ensures rc == if m == n then 0 else OS_ENOMEM
    ensures Needed(k, m - old(c[|c| - 1].TrailingSpace()), dst.pool.databufLen)
    ensures CountedUp(dst, base, pos + m) && dst.pkthdrLen == old(dst.pkthdrLen) && dst.Header() == old(dst.Header())
    ensures next == At(cs, i + 1) && cur.len == old(cur.len) && (n == cur.len - o
        ==> a[pos + n..] == Tail(Snaps(cs), i + 1, 0))
  {
    hide Packet, Bytes, Owned, Set, FreeBlocks, World, U16, Snaps, Room, Content, Buf.Data, Mbuf.Snap, Prefix, Tail,
         Mbuf.Header, Needed, Mbuf.TrailingSpace;
    SourceStep(src, cs, i, o, n, a, pos);
    U16Add(base + pos, Min(n, Room(c, dst.pool)));
    next := cur.next;
    rc, c', m, k := Append(dst, c, cur.Snap().Data()[o..o + n], ps);
  }

  /** The loop of os_mbuf_appendfrom, from a position in the source. */
  method AppendLoop(dst: Mbuf, ghost cd: seq<Mbuf>, ghost src: Mbuf?, ghost cs: seq<Mbuf>,
                    start: Mbuf?, ghost i0: nat, sub: nat, len: nat, ghost ps: Pools)
    returns (rc: int, ghost c': seq<Mbuf>, ghost n: nat, ghost k: nat)
    requires Packet(dst, cd) && cd != [] && Owned(cd, ps) && Packet(src, cs)
    requires Set(cs) !! Set(cd) && Set(cs) !! FreeBlocks(ps)
    requires i0 <= |cs| && start == At(cs, i0) && (start != null ==> sub <= start.len)
    modifies dst.pool, dst.pool.free, cd
    ensures k <= |old(dst.pool.free)| && c' == cd + old(dst.pool.free)[..k] && dst.pool.free == old(dst.pool.free)[k..]
    ensures Packet(dst, c') && Owned(c', ps)
    ensures FreeBlocks(ps) + Set(c') == old(FreeBlocks(ps)) + Set(cd)
    ensures var a := old(Tail(Snaps(cs), i0, sub));
            && n == Min(Min(len, |a|), old(Room(cd, dst.pool)))
            && Bytes(c') == old(Bytes(cd)) + a[0..n]
            && rc == if n == len then 0 else if n == |a| then OS_EINVAL else OS_ENOMEM
    ensures Needed(k, n - old(cd[|cd| - 1].TrailingSpace()), dst.pool.databufLen)
    ensures CountedUp(dst, old(dst.pktLen), n) && dst.pkthdrLen == old(dst.pkthdrLen)
    ensures dst.Header() == old(dst.Header())
  {
    hide Packet, Bytes, Owned, Set, FreeBlocks, World, Tail, From, U16, Snaps, Room, Content, Buf.Data, Mbuf.Snap,
         Prefix, Mbuf.Header, CountedUp, Mbuf.IsPkthdr, Needed, Mbuf.TrailingSpace, Capacity, Sound, Buf.Ok, Linked;
    ghost var s := Snaps(cs);
    ghost var a := Tail(s, i0, sub);
    ghost var bytes := Bytes(cd);
    ghost var room, d, ts := Room(cd, dst.pool), dst.pool.databufLen, cd[|cd| - 1].TrailingSpace();
    RoomIs(cd, dst.pool);
    ghost var base, hlen, stock, h0 := dst.pktLen, dst.pkthdrLen, FreeBlocks(ps) + Set(cd), dst.Header();
    CountUp(dst, base);
    HeadAt(dst, cd);
    Outside(cs, cd, ps);
    RoomNotNegative(dst, cd, dst.pool);
    NeededNone(0 - ts, d);
    ghost var F := dst.pool.free;
    k := 0;
    c' := cd + F[..0];
    assert c' == cd;
    n := 0;
    var rem: nat := len;
    var cur, curOff := start, sub;
    ghost var i: nat := i0;
    while rem > 0
      invariant k <= |F| && c' == cd + F[..k] && dst.pool.free == F[k..]
      invariant Packet(dst, c') && Owned(c', ps)
      invariant FreeBlocks(ps) + Set(c') == stock
      invariant Packet(src, cs) && Snaps(cs) == s
      invariant i <= |cs| && cur == At(cs, i) && 0 <= curOff && (cur != null ==> curOff <= cur.len)
      invariant n + rem == len && n <= |a| && (rem > 0 ==> a[n..] == Tail(s, i, curOff))
      invariant Bytes(c') == bytes + a[0..n]
      invariant Room(c', dst.pool) == room - n && n <= room && Needed(k, n - ts, d)
      invariant CountedUp(dst, base, n) && dst.pkthdrLen == hlen && dst.Header() == h0
      decreases |cs| - i
    {
      if cur == null {
        TailEnd(s, curOff);
        return OS_EINVAL, c', n, k;
      }
      var chunk: nat := Min(rem, cur.len - curOff);
      NotAmong(cs, cd, F, k);
      LastLeft(c', dst.pool, |F|, ts, k, n);
      ghost var k0, m := k, 0;
      var next;
      rc, c', m, k, next := AppendSlice(dst, c', src, cs, cur, i, curOff, chunk, a, n, base, ps);
      NeededBoth(k0, n - ts, k, m, d);
      k := k + k0;
      SliceMore(bytes, a, n, chunk, m);
      n := n + m;
      if rc != 0 {
        return;
      }
      rem := rem - chunk;
      cur, curOff, i := next, 0, i + 1;
    }
    rc := 0;
  }

  /** os_mbuf_appendfrom */
  method AppendFrom(dst: Mbuf, ghost cd: seq<Mbuf>, src: Mbuf?, ghost cs: seq<Mbuf>, srcOff: nat, len: nat,
                    ghost ps: Pools)
    returns (rc: int, ghost c': seq<Mbuf>, ghost n: nat, ghost k: nat)
    requires Packet(dst, cd) && Owned(cd, ps) && Packet(src, cs)
    requires Set(cs) !! Set(cd) && Set(cs) !! FreeBlocks(ps)
    modifies dst.pool, dst.pool.free, cd
    ensures cd != [] && k <= |old(dst.pool.free)| && c' == cd + old(dst.pool.free)[..k]
        && dst.pool.free == old(dst.pool.free)[k..]
    ensures Packet(dst, c') && Owned(c', ps)
    ensures FreeBlocks(ps) + Set(c') == old(FreeBlocks(ps)) + Set(cd)
    ensures var a := From(old(Bytes(cs)), srcOff);
            && n == Min(Min(len, |a|), old(Room(cd, dst.pool)))
            && Bytes(c') == old(Bytes(cd)) + a[0..n]
            && rc == if n == len then 0 else if n == |a| then OS_EINVAL else OS_ENOMEM
    ensures Needed(k, n - old(cd[|cd| - 1].TrailingSpace()), dst.pool.databufLen)
    ensures dst.pktLen == (if dst.IsPkthdr() then U16(old(dst.pktLen) + n) else old(dst.pktLen))
        && dst.pkthdrLen == old(dst.pkthdrLen)
    ensures dst.Header() == old(dst.Header())
  {
    hide Packet, Bytes, Owned, Set, FreeBlocks, World, Tail, From, U16, Snaps, Room, Content, Needed;
    HeadAt(dst, cd);
    var cur, curOff, i := Off(src, cs, srcOff);
    rc, c', n, k := AppendLoop(dst, cd, src, cs, cur, i, curOff, len, ps);
  }

  /** A chain of live buffers apart from the destination is out of its reach. */
  lemma Outside(cs: seq<Mbuf>, cd: seq<Mbuf>, ps: Pools)
    requires Set(cs) !! Set(cd) && Set(cs) !! FreeBlocks(ps) && Owned(cd, ps) && cd != []
    ensures forall i | 0 <= i < |cs| :: cs[i] !in cd && cs[i] !in cd[0].pool.free
  {
    hide Owned;
    PoolsOk(cd, ps, cd[0].pool);
    forall i | 0 <= i < |cs| ensures cs[i] !in cd && cs[i] !in cd[0].pool.free {
      assert cs[i] in Set(cs);
    }
  }

  /** After a successful appendfrom, os_mbuf_copydata reads the same from the end of the destination as from the range
      of the source: both leave any flat buffer d with the same contents, however the two chains are split. */
  lemma AppendedAgrees(before: seq<byte>, src: seq<byte>, off: nat, len: nat, d: seq<byte>)
    requires off + len <= |src| && len <= |d|
    ensures var after := before + From(src, off)[0..len];
            Overwritten(d, From(after, |before|), len) == Overwritten(d, From(src, off), len)
  {
    var after := before + src[off..][0..len];
    assert after[|before|..] == src[off..][0..len];
    assert src[off..][0..len][..len] == src[off..][..len];
  }
}
