// os_mbuf_copyinto: flat data over the bytes of a chain, extending it when needed.
module Overwriting {
  import opened ByteSeqs
  import opened Bufs
  import opened Mbufs
  import opened Appending
  import opened Cursors
  import opened Joining

  /** b with x written over it from position `at` on; b grows when x reaches past its end. */
  function Overwrite(b: seq<byte>, at: nat, x: seq<byte>): seq<byte>
    requires at <= |b|
  {
    if at + |x| <= |b| then Splice(b, at, x) else b[..at] + x
  }

  /** Writing x at position o of d[i..i + len]. */
  lemma WriteInside(d: seq<byte>, i: nat, len: nat, o: nat, x: seq<byte>, h: nat)
    requires i + len <= |d| && o + |x| <= len && h <= i
    ensures Splice(d, i + o, x)[i..i + len] == Splice(d[i..i + len], o, x) && Splice(d, i + o, x)[..h] == d[..h]
  {
    hide Splice;
    var r, t := Splice(d, i + o, x), Splice(d[i..i + len], o, x);
    forall k | 0 <= k < len ensures r[i..i + len][k] == t[k] {
      SpliceAt(d, i + o, x, i + k);
      SpliceAt(d[i..i + len], o, x, k);
    }
    assert r[i..i + len] == t;
    SpliceLow(d, i + o, x, 0, h);
  }

  lemma WriteBuf(b: Buf, o: nat, x: seq<byte>)
    requires b.Ok() && o + |x| <= b.len
    ensures var t := b.(databuf := Splice(b.databuf, b.off + o, x));
            && |b.Data()| == b.len && t.Ok() && t.Data() == Splice(b.Data(), o, x)
            && t.databuf[..b.pkthdrLen] == b.databuf[..b.pkthdrLen]
  {
    hide Splice;
    WriteInside(b.databuf, b.off, b.len, o, x, b.pkthdrLen);
  }

  lemma ContentWrite(s: seq<Buf>, i: nat, o: nat, x: seq<byte>, b: Buf)
    requires i < |s| && o + |x| <= |s[i].Data()| && b.Data() == Splice(s[i].Data(), o, x)
    ensures |Content(s[..i])| + o + |x| <= |Content(s)|
    ensures Content(s[i := b]) == Splice(Content(s), |Content(s[..i])| + o, x)
  {
    hide Content, Buf.Data;
    var t := s[i := b];
    ContentSplit(s, i);
    ContentSplit(t, i);
    ContentFrom(s, i);
    ContentFrom(t, i);
    assert t[..i] == s[..i] && t[i + 1..] == s[i + 1..];
  }

  /** memcpy into the data of the i-th buffer */
  method WriteAt(om: Mbuf, ghost c: seq<Mbuf>, ghost i: nat, cur: Mbuf, o: nat, x: seq<byte>)
    requires Packet(om, c) && i < |c| && cur == c[i] && o + |x| <= cur.len
    modifies cur`databuf
    ensures Packet(om, c) && Snaps(c)[..i] == old(Snaps(c)[..i]) && om.Header() == old(om.Header())
    ensures var at := old(|Content(Snaps(c)[..i])|) + o;
            at + |x| <= |old(Bytes(c))| && Bytes(c) == Splice(old(Bytes(c)), at, x)
  {
    hide Linked, Snaps, Content, Sound, Buf.Data, Splice;
    ghost var s := Snaps(c);
    SnapsAt(c);
    SoundAt(s, i);
    WriteBuf(cur.Snap(), o, x);
    HeadAt(om, c);
    cur.databuf := Splice(cur.databuf, cur.off + o, x);
    Others(om, c, i);
    SnapsUpdate(c, s, i);
    SoundUpdate(s, i, cur.Snap());
    ContentWrite(s, i, o, x, cur.Snap());
  }

  lemma SpliceMore(b: seq<byte>, at: nat, x: seq<byte>, pos: nat, k: nat)
    requires pos + k <= |x| && at + pos + k <= |b|
    ensures Splice(Splice(b, at, x[..pos]), at + pos, x[pos..pos + k]) == Splice(b, at, x[..pos + k])
  {
  }

  /** The overwriting loop, from position o of the i0-th buffer, which is offset `off` of the packet. */
  method WriteLoop(om: Mbuf, ghost c: seq<Mbuf>, start: Mbuf, ghost i0: nat, sub: nat, ghost off: nat, src: seq<byte>)
    returns (cur: Mbuf, pos: nat)
    requires Packet(om, c) && i0 < |c| && start == c[i0] && sub <= start.len && off == |Content(Snaps(c)[..i0])| + sub
    modifies c`databuf
    ensures Packet(om, c) && off <= |old(Bytes(c))| && pos == Min(|src|, |old(Bytes(c))| - off)
    ensures Bytes(c) == Splice(old(Bytes(c)), off, src[..pos])
    ensures c != [] && (pos < |src| ==> cur == c[|c| - 1])
    ensures om.Header() == old(om.Header())
  {
    hide Packet, Snaps, Content, Sound, Buf.Data, Splice, Mbuf.Header, Mbuf.Snap;
    ghost var b := Bytes(c);
    ghost var i: nat := i0;
    var o := sub;
    cur := start;
    pos := 0;
    HeadAt(om, c);
    Upto(om, c, i, o);
    SpliceNone(b, off, src);
    while true
      invariant Packet(om, c) && i < |c| && cur == c[i] && 0 <= o <= cur.len
      invariant pos <= |src| && off + pos == |Content(Snaps(c)[..i])| + o <= |b|
      invariant Bytes(c) == Splice(b, off, src[..pos])
      invariant om.Header() == old(om.Header())
      decreases |c| - i
    {
      var k: nat := Min(cur.len - o, |src| - pos);
      if k > 0 {
        WriteAt(om, c, i, cur, o, src[pos..pos + k]);
        SpliceMore(b, off, src, pos, k);
        pos := pos + k;
        o := o + k;
      }
      Upto(om, c, i, o);
      if pos == |src| {
        break;
      }
      var next := cur.next;
      FollowAt(om, c, i);
      if next == null {
        Ends(c, i);
        break;
      }
      cur, o, i := next, 0, i + 1;
    }
  }

  lemma SpliceNone(b: seq<byte>, at: nat, x: seq<byte>)
    requires at <= |b|
    ensures Splice(b, at, x[..0]) == b
  {
  }

  /** Where position o of the i-th buffer lies in the packet. */
  lemma Upto(om: Mbuf, c: seq<Mbuf>, i: nat, o: nat)
    requires Packet(om, c) && i < |c| && o <= c[i].len
    ensures |Content(Snaps(c)[..i])| + o <= |Bytes(c)|
    ensures |Content(Snaps(c)[..i + 1])| == |Content(Snaps(c)[..i])| + c[i].len <= |Bytes(c)|
  {
    hide Linked, Snaps, Content, Sound;
    DataLenAt(c, i);
    ContentSplit(Snaps(c), i + 1);
  }

  lemma Ends(c: seq<Mbuf>, i: nat)
    requires i < |c| && At(c, i + 1) == null
    ensures i == |c| - 1 && Snaps(c)[..i + 1] == Snaps(c)
  {
  }

  /** The links in front of the last buffer. */
  lemma FrontLinks(om: Mbuf?, c: seq<Mbuf>)
    requires Linked(om, c) && c != []
    ensures var i := |c| - 1; var last := c[i]; var f := c[..i];
            && last.next == null && om == (if f == [] then last else f[0])
            && (forall j | 0 <= j < |f| :: f[j] != last)
            && (forall j, k | 0 <= j < k < |f| :: f[j] != f[k])
            && (forall j {:trigger f[j].next} | 0 <= j < |f| - 1 :: f[j].next == At(f, j + 1))
            && (f != [] ==> f[|f| - 1].next == last)
  {
    NextAt(om, c, |c| - 1);
    if |c| > 1 {
      NextAt(om, c, |c| - 2);
    }
  }

  /** The last buffer of a chain is a chain of its own. */
  lemma LastAlone(om: Mbuf, c: seq<Mbuf>)
    requires Packet(om, c) && c != []
    ensures var i := |c| - 1; var last := c[i]; var f := c[..i];
            && Linked(om, c) && Packet(last, [last]) && Sound(Snaps(f)) && Bytes(c) == Bytes(f) + Bytes([last])
            && (f != [] ==> !last.IsPkthdr() && last.pkthdrLen == 0)
  {
    hide Snaps, Content, Sound, At;
    var i := |c| - 1;
    var last, f := c[i], c[..i];
    assert c == f + [last] && c[i..] == [last];
    LinkedFrom(om, c, i);
    AtOf(c, i);
    SnapsSlice(c, i);
    SoundSlice(Snaps(c), i);
    SnapAt(c, i);
    SoundAt(Snaps(c), i);
    SnapsConcat(f, [last]);
    ContentConcat(Snaps(f), Snaps([last]));
  }

  lemma AtOf(c: seq<Mbuf>, i: nat)
    requires i < |c|
    ensures At(c, i) == c[i]
  {
  }

  lemma LastOwned(om: Mbuf, c: seq<Mbuf>, ps: Pools)
    requires Linked(om, c) && Owned(c, ps) && c != []
    ensures var i := |c| - 1; var last := c[i]; var f := c[..i];
            && Owned([last], ps) && last.pool in ps
            && (forall j | 0 <= j < |f| :: f[j] !in last.pool.free && f[j].pool in ps)
            && Set(f) !! FreeBlocks(ps) && last !in FreeBlocks(ps) && Set(c) == Set(f) + {last}
  {
    hide Linked, World, FreeBlocks, Pool.Ok, At;
    var i := |c| - 1;
    assert c == c[..i] + [c[i]] && c[i..] == [c[i]];
    OwnedSplit(om, c, i, ps);
    PoolsOk(c, ps, c[i].pool);
    DistinctAt(om, c, i);
  }

  /** A front part and a chain it leads to. */
  lemma Longer(om: Mbuf, f: seq<Mbuf>, e: seq<Mbuf>, last: Mbuf)
    requires Packet(last, e) && Sound(Snaps(f)) && om == (if f == [] then last else f[0])
    requires forall j, k | 0 <= j < k < |f| :: f[j] != f[k]
    requires forall j {:trigger f[j].next} | 0 <= j < |f| - 1 :: f[j].next == At(f, j + 1)
    requires f != [] ==> f[|f| - 1].next == last && last.pkthdrLen == 0
    requires Set(f) !! Set(e)
    ensures Packet(om, f + e) && Bytes(f + e) == Bytes(f) + Bytes(e)
  {
    hide Linked, Snaps, Content, Sound;
    HeadAt(last, e);
    SnapsConcat(f, e);
    ContentConcat(Snaps(f), Snaps(e));
    if f == [] {
      assert f + e == e;
    } else {
      Apart(f, e);
      LinkedConcat(om, f, e);
      SnapAt(e, 0);
      SoundConcat(Snaps(f), Snaps(e));
    }
  }

  lemma OwnedLonger(f: seq<Mbuf>, e: seq<Mbuf>, last: Mbuf, ps: Pools, before: set<Mbuf>)
    requires Owned(e, ps) && forall j | 0 <= j < |f| :: f[j].pool in ps && f[j] != last
    requires Set(f) !! before && FreeBlocks(ps) + Set(e) == before + {last}
    ensures Owned(f + e, ps) && FreeBlocks(ps) + Set(f + e) == before + Set(f) + {last} && Set(f) !! Set(e)
  {
    hide World, FreeBlocks;
    assert Set(f + e) == Set(f) + Set(e);
    assert last !in Set(f);
  }

  /** os_mbuf_append called on the last buffer of a longer chain: only that buffer's own header is counted up. */
  method Extend(ghost om: Mbuf, ghost c: seq<Mbuf>, last: Mbuf, data: seq<byte>, ghost ps: Pools)
    returns (rc: int, ghost c': seq<Mbuf>, ghost n: nat, ghost k: nat)
    requires Packet(om, c) && Owned(c, ps) && c != [] && last == c[|c| - 1]
    modifies last.pool, last.pool.free, last
    ensures k <= |old(last.pool.free)| && c' == c + old(last.pool.free)[..k]
        && last.pool.free == old(last.pool.free)[k..]
    ensures Packet(om, c') && Owned(c', ps)
    ensures FreeBlocks(ps) + Set(c') == old(FreeBlocks(ps)) + Set(c)
    ensures n == Min(|data|, old(Room(c, last.pool))) && Needed(k, n - old(last.TrailingSpace()), last.pool.databufLen)
    ensures Bytes(c') == old(Bytes(c)) + data[0..n]
    ensures rc == if n == |data| then 0 else OS_ENOMEM
    ensures om.pktLen == (if |c| == 1 && om.IsPkthdr() then U16(old(om.pktLen) + n) else old(om.pktLen))
        && om.pkthdrLen == old(om.pkthdrLen)
    ensures om.Header() == old(om.Header())
  {
    hide Packet, Bytes, Owned, Set, Snaps, Content, Sound, World, FreeBlocks, Capacity, U16, Prefix, Mbuf.Header,
         Buf.Data, Needed;
    LastAlone(om, c);
    LastOwned(om, c, ps);
    FrontLinks(om, c);
    ghost var f := c[..|c| - 1];
    ghost var before := FreeBlocks(ps);
    ghost var e;
    rc, e, n, k := Append(last, [last], data, ps);
    OneElement(last);
    OwnedLonger(f, e, last, ps, before);
    Longer(om, f, e, last);
    c' := f + e;
    assert c' == c + old(last.pool.free)[..k];
  }

  /** How many source bytes reach past the end of a packet of n bytes. */
  function Beyond(n: nat, off: nat, len: nat): nat {
    if off + len <= n then 0 else if off <= n then off + len - n else len
  }

  lemma Extended(b: seq<byte>, off: nat, src: seq<byte>, pos: nat, n: nat)
    requires off <= |b| && pos == Min(|src|, |b| - off) && pos + n <= |src| && (pos == |src| ==> n == 0)
    ensures Splice(b, off, src[..pos]) + src[pos..pos + n] == Overwrite(b, off, src[..pos + n])
    ensures |src| - pos == Beyond(|b|, off, |src|)
    ensures n == 0 ==> Splice(b, off, src[..pos]) == Overwrite(b, off, src[..pos])
  {
    if pos < |src| {
      assert src[..pos + n] == src[..pos] + src[pos..pos + n];
    } else {
      assert src[..pos + n] == src && src[pos..pos + n] == [];
    }
  }

  /** What the packet header's length field h becomes when len bytes are copied to offset off of n bytes. */
  function CopiedLen(h: uint16, n: nat, off: nat, len: nat, single: bool): uint16 {
    var rest := Beyond(n, off, len);
    if rest == 0 then h else U16(Max(if single then U16(h + U16(rest)) else h, off + rest))
  }

  /** The second half of os_mbuf_copyinto: b is what the packet held before, src[..pos] is already written. */
  method CopyRest(om: Mbuf, ghost c: seq<Mbuf>, last: Mbuf, src: seq<byte>, pos: nat, off: nat, ghost b: seq<byte>,
                  ghost ps: Pools)
    returns (rc: int, ghost c': seq<Mbuf>, ghost n: nat, ghost k: nat)
    requires Packet(om, c) && Owned(c, ps) && c != [] && last == c[|c| - 1] && Room(c, last.pool) >= 0
    requires off <= |b| && pos == Min(|src|, |b| - off) < |src| && Bytes(c) == Splice(b, off, src[..pos])
    modifies c, last.pool, last.pool.free
    ensures Packet(om, c') && Owned(c', ps) && FreeBlocks(ps) + Set(c') == old(FreeBlocks(ps)) + Set(c)
    ensures k <= |old(last.pool.free)| && c' == c + old(last.pool.free)[..k]
    ensures var rest := Beyond(|b|, off, |src|);
              && n == Min(U16(rest), old(Room(c, last.pool))) && rc == (if n == U16(rest) then 0 else OS_ENOMEM)
              && n <= rest && Bytes(c') == Overwrite(b, off, src[..|src| - rest + n])
    ensures Needed(k, n - old(last.TrailingSpace()), last.pool.databufLen)
    ensures om.Header() == old(om.Header()) && om.pkthdrLen == old(om.pkthdrLen)
    ensures rc == 0 && om.IsPkthdr() ==> om.pktLen == CopiedLen(old(om.pktLen), |b|, off, |src|, |c| == 1)
    ensures !om.IsPkthdr() ==> om.pktLen == old(om.pktLen)
    ensures rc == OS_ENOMEM ==> om.pktLen == if |c| == 1
        && om.IsPkthdr() then U16(old(om.pktLen) + n) else old(om.pktLen)
  {
    hide Packet, Bytes, Owned, Set, Snaps, Content, World, FreeBlocks, Capacity, U16, Overwrite, Mbuf.Header, Room,
         Mbuf.TrailingSpace, At, Needed;
    Extended(b, off, src, pos, 0);
    U16Same(|src| - pos);
    U16Add(|b|, U16(|src| - pos));
    HeadAt(om, c);
    var rest := U16(|src| - pos);
    rc, c', n, k := Extend(om, c, last, src[pos..pos + rest], ps);
    Extended(b, off, src, pos, n);
    if rc == 0 && om.IsPkthdr() {
      SetPktLen(om, c', U16(Max(om.pktLen, off + (|src| - pos))));
    }
  }

  /** os_mbuf_copyinto, once the start of the destination has been found */
  method CopyAt(om: Mbuf, ghost c: seq<Mbuf>, cur: Mbuf, ghost i: nat, sub: nat, off: nat, src: seq<byte>,
                ghost ps: Pools)
    returns (rc: int, ghost c': seq<Mbuf>, ghost n: nat, ghost k: nat)
    requires Packet(om, c) && Owned(c, ps) && i < |c| && cur == c[i] && sub <= cur.len
    requires off == |Content(Snaps(c)[..i])| + sub <= |Bytes(c)|
    modifies c, c[|c| - 1].pool, c[|c| - 1].pool.free
    ensures Packet(om, c') && Owned(c', ps) && FreeBlocks(ps) + Set(c') == old(FreeBlocks(ps)) + Set(c)
    ensures k <= |old(c[|c| - 1].pool.free)| && c' == c + old(c[|c| - 1].pool.free)[..k]
    ensures var b := old(Bytes(c)); var rest := Beyond(|b|, off, |src|);
              && n == Min(U16(rest), old(Room(c, c[|c| - 1].pool)))
              && rc == (if n == U16(rest) then 0 else OS_ENOMEM)
              && n <= rest && Bytes(c') == Overwrite(b, off, src[..|src| - rest + n])
    ensures Needed(k, n - old(c[|c| - 1].TrailingSpace()), c[|c| - 1].pool.databufLen)
    ensures om.Header() == old(om.Header()) && om.pkthdrLen == old(om.pkthdrLen)
    ensures rc == 0 && om.IsPkthdr() ==>
              om.pktLen == CopiedLen(old(om.pktLen), |old(Bytes(c))|, off, |src|, |c| == 1)
    ensures !om.IsPkthdr() ==> om.pktLen == old(om.pktLen)
    ensures rc == OS_ENOMEM ==> om.pktLen == if |c| == 1
        && om.IsPkthdr() then U16(old(om.pktLen) + n) else old(om.pktLen)
  {
    hide Packet, Bytes, Owned, Set, Snaps, Content, World, FreeBlocks, Capacity, U16, Overwrite, Mbuf.Header, Room,
         Mbuf.TrailingSpace, At, Needed;
    c', n, k := c, 0, 0;
    ghost var b := Bytes(c);
    HeadAt(om, c);
    LastRoom(om, c, ps);
    NeededNone(0 - c[|c| - 1].TrailingSpace(), c[|c| - 1].pool.databufLen);
    var last, pos := WriteLoop(om, c, cur, i, sub, off, src);
    rc := 0;
    if pos < |src| {
      rc, c', n, k := CopyRest(om, c, last, src, pos, off, b, ps);
    } else {
      Extended(b, off, src, pos, 0);
      U16Same(0);
    }
  }

  lemma LastRoom(om: Mbuf, c: seq<Mbuf>, ps: Pools)
    requires Packet(om, c) && Owned(c, ps) && c != []
    ensures Room(c, c[|c| - 1].pool) >= 0 && forall j | 0 <= j < |c| :: c[j] !in c[|c| - 1].pool.free
    ensures c[|c| - 1].TrailingSpace() >= 0
  {
    hide Packet, Owned, Room;
    PoolsOk(c, ps, c[|c| - 1].pool);
    RoomNotNegative(om, c, c[|c| - 1].pool);
  }

  /** os_mbuf_copyinto */
  method CopyInto(om: Mbuf?, ghost c: seq<Mbuf>, off: nat, src: seq<byte>, ghost ps: Pools)
    returns (rc: int, ghost c': seq<Mbuf>, ghost n: nat, ghost k: nat)
    requires Packet(om, c) && Owned(c, ps)
    modifies c, ps.Keys, if c == [] then [] else c[|c| - 1].pool.free
    ensures Packet(om, c') && Owned(c', ps) && FreeBlocks(ps) + Set(c') == old(FreeBlocks(ps)) + Set(c)
    ensures rc == -1 <==> c == [] || off > |old(Bytes(c))|
    ensures rc == -1 ==> c' == c && Bytes(c) == old(Bytes(c)) && Snaps(c) == old(Snaps(c))
    ensures rc != -1 ==> c != [] && c <= c' && |c'| == |c| + k
    ensures rc != -1 ==> k <= |old(c[|c| - 1].pool.free)| && c' == c + old(c[|c| - 1].pool.free)[..k]
    ensures rc != -1 ==>
              var b := old(Bytes(c)); var rest := Beyond(|b|, off, |src|);
              && n == Min(U16(rest), old(Room(c, c[|c| - 1].pool)))
              && rc == (if n == U16(rest) then 0 else OS_ENOMEM)
              && off <= |b| && n <= rest && Bytes(c') == Overwrite(b, off, src[..|src| - rest + n])
    ensures rc != -1 ==> Needed(k, n - old(c[|c| - 1].TrailingSpace()), c[|c| - 1].pool.databufLen)
    ensures rc != -1 ==> om.Header() == old(om.Header()) && om.pkthdrLen == old(om.pkthdrLen)
    ensures rc == 0 && om.IsPkthdr() ==>
              om.pktLen == CopiedLen(old(om.pktLen), |old(Bytes(c))|, off, |src|, |c| == 1)
    ensures om != null && !om.IsPkthdr() ==> om.pktLen == old(om.pktLen)
    ensures rc == OS_ENOMEM ==> om.pktLen == if |c| == 1
        && om.IsPkthdr() then U16(old(om.pktLen) + n) else old(om.pktLen)
  {
    hide Packet, Bytes, Owned, Set, Snaps, Content, World, FreeBlocks, Capacity, U16, Overwrite, Mbuf.Header, Room,
         Mbuf.TrailingSpace, Needed, Sound;
    var cur, sub, i := Off(om, c, off);
    FollowAt(om, c, 0);
    if cur == null {
      return -1, c, 0, 0;
    }
    PoolsOk(c, ps, c[|c| - 1].pool);
    rc, c', n, k := CopyAt(om, c, cur, i, sub, off, src, ps);
  }

  /** The header after a copy, for any header h before it: it stays if nothing is appended, a single buffer's header
      first counts what is appended, and a chain's only rises to the offset plus the length of what is appended. */
  lemma HeaderByCases(h: uint16, n: nat, off: nat, len: nat, single: bool)
    requires off <= n && off + len - n < 0x1_0000
    ensures off + len <= n ==> CopiedLen(h, n, off, len, single) == h
    ensures off + len > n && single ==>
              CopiedLen(h, n, off, len, single) == U16(Max(U16(h + (off + len - n)), 2 * off + len - n))
    ensures off + len > n && !single ==> CopiedLen(h, n, off, len, single) == U16(Max(h, 2 * off + len - n))
  {
    U16Same(Beyond(n, off, len));
  }

  /** A right header stays right exactly when nothing is appended, to a single buffer or from the old end on;
      otherwise it is too small: the bytes appended count only from the offset. */
  lemma HeaderAfterCopy(b: seq<byte>, off: nat, src: seq<byte>, single: bool)
    requires off <= |b| && Max(|b|, off + |src|) < 0x1_0000
    ensures var total, h := |Overwrite(b, off, src)|, CopiedLen(|b|, |b|, off, |src|, single);
            && total == Max(|b|, off + |src|)
            && h <= total && (h == total <==> off + |src| <= |b| || single || off == |b|)
            && (!single && off < |b| < off + |src| ==> h == Max(|b|, 2 * off + |src| - |b|))
  {
    HeaderByCases(|b|, |b|, off, |src|, single);
    U16Same(off + Beyond(|b|, off, |src|));
    U16Same(Max(|b|, off + |src|));
    U16Same(Max(|b|, 2 * off + |src| - |b|));
    hide U16;
  }

  /** A successful copy writes all of src exactly when the part behind the old end is below 65536 bytes. */
  lemma CopyComplete(b: seq<byte>, off: nat, src: seq<byte>)
    requires off <= |b|
    ensures var rest := Beyond(|b|, off, |src|);
            Overwrite(b, off, src[..|src| - rest + U16(rest)]) == Overwrite(b, off, src) <==> rest < 0x1_0000
    ensures Overwrite(b, off, src) == b[..off] + src + From(b, off + |src|)
  {
    var rest := Beyond(|b|, off, |src|);
    U16Same(rest);
    if rest < 0x1_0000 {
      assert src[..|src|] == src;
    } else {
      assert |Overwrite(b, off, src)| == off + |src|;
      assert |Overwrite(b, off, src[..|src| - rest + U16(rest)])| == off + |src| - rest + U16(rest);
    }
  }
}
