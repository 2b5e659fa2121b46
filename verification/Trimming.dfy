// os_mbuf_adj and os_mbuf_trim_front: shortening a chain at either end.
module Trimming {
  import opened ByteSeqs
  import opened Bufs
  import opened Mbufs
  import opened Shapes

  /** Dropping k bytes from the first buffer that holds any drops them from the packet. */
  lemma FrontCut(om: Mbuf?, c: seq<Mbuf>, s: seq<Buf>, i: nat, k: nat)
    requires Linked(om, c) && Sound(s) && i < |c| == |s| && Content(s[..i]) == []
    requires forall j | 0 <= j < |c| :: c[j] == c[i] || c[j].Snap() == s[j]
    requires k <= |s[i].Data()| && c[i].Snap().Data() == s[i].Data()[k..]
    requires c[i].Snap().Ok() && c[i].pkthdrLen == s[i].pkthdrLen
    ensures Packet(om, c) && k <= |Content(s)| && Bytes(c) == Content(s)[k..]
    ensures Content(Snaps(c)[..i]) == [] && (k == |s[i].Data()| ==> Content(Snaps(c)[..i + 1]) == [])
  {
    hide Linked, Snaps, Content, Sound, Buf.Data, Buf.Ok;
    Others(om, c, i);
    SnapsUpdate(c, s, i);
    SoundAt(s, i);
    SoundUpdate(s, i, c[i].Snap());
    ContentAround(s, i, c[i].Snap(), k);
  }

  lemma ContentAround(s: seq<Buf>, i: nat, b: Buf, k: nat)
    requires i < |s| && Content(s[..i]) == [] && k <= |s[i].Data()| && b.Data() == s[i].Data()[k..]
    ensures k <= |Content(s)| && Content(s[i := b]) == Content(s)[k..]
    ensures Content(s[i := b][..i]) == [] && (k == |s[i].Data()| ==> Content(s[i := b][..i + 1]) == [])
  {
    hide *;
    var t := s[i := b];
    assert t[..i] == s[..i] && t[i + 1..] == s[i + 1..];
    ContentSplit(s, i);
    ContentSplit(t, i);
    ContentFrom(s, i);
    ContentFrom(t, i);
    ContentUpTo(t, i);
  }

  /** om_len = 0 in the first buffer that may hold bytes. */
  method DropAll(ghost om: Mbuf, ghost c: seq<Mbuf>, ghost i: nat, m: Mbuf)
    requires Packet(om, c) && i < |c| && m == c[i] && Content(Snaps(c)[..i]) == []
    modifies m`len
    ensures Packet(om, c) && Content(Snaps(c)[..i + 1]) == []
    ensures Outline(c) == old(Outline(c))[i := Shape(m.off, 0)]
    ensures old(m.len) <= |old(Bytes(c))| && Bytes(c) == old(Bytes(c))[old(m.len)..]
  {
    hide Linked, Snaps, Content, Sound, Outline;
    ghost var s, t := Snaps(c), Outline(c);
    SnapsAt(c);
    ShapesAt(c);
    SoundAt(s, i);
    m.len := 0;
    FrontCut(om, c, s, i, old(m.len));
    Others(om, c, i);
    ShapesUpdate(c, t, i);
  }

  /** om_data += k, om_len -= k in the first buffer that may hold bytes. */
  method DropSome(ghost om: Mbuf, ghost c: seq<Mbuf>, ghost i: nat, m: Mbuf, k: nat)
    requires Packet(om, c) && i < |c| && m == c[i] && Content(Snaps(c)[..i]) == [] && k < m.len
    modifies m`len, m`off
    ensures Packet(om, c) && Content(Snaps(c)[..i]) == [] && m.off == old(m.off) + k
    ensures Outline(c) == old(Outline(c))[i := Shape(m.off, m.len)] && m.len == old(m.len) - k
    ensures k <= |old(Bytes(c))| && Bytes(c) == old(Bytes(c))[k..]
  {
    hide Linked, Snaps, Content, Sound, Outline;
    ghost var s, t := Snaps(c), Outline(c);
    SnapsAt(c);
    ShapesAt(c);
    SoundAt(s, i);
    m.len := m.len - k;
    m.off := m.off + k;
    assert m.Snap().Data() == s[i].Data()[k..];
    FrontCut(om, c, s, i, k);
    Others(om, c, i);
    ShapesUpdate(c, t, i);
  }

  /** os_mbuf_adj with a non-negative length: bytes leave the front; no buffer is freed. */
  method AdjHead(om: Mbuf, ghost c: seq<Mbuf>, reqLen: nat)
    requires Packet(om, c)
    modifies c
    ensures Packet(om, c) && Bytes(c) == old(Bytes(c))[Min(reqLen, |old(Bytes(c))|)..]
    ensures om.pkthdrLen == old(om.pkthdrLen) && om.databuf == old(om.databuf)
    ensures om.pktLen == if om.IsPkthdr() then U16(old(om.pktLen) - Min(reqLen, |old(Bytes(c))|)) else old(om.pktLen)
    ensures FrontGone(Outline(c), old(Snaps(c)), reqLen)
  {
    hide Packet, Bytes, Snaps, Content, U16, FrontGone, GoneUpTo, Outline, Sound, Linked;
    ghost var b0, s := Bytes(c), Snaps(c);
    NoneGone(om, c, reqLen);
    HeadAt(om, c);
    var len := reqLen;
    var m: Mbuf? := om;
    ghost var i := 0;
    ContentNone(Snaps(c));
    while m != null && len > 0
      invariant Packet(om, c) && i <= |c| && m == At(c, i)
      invariant 0 <= len <= reqLen && reqLen - len <= |b0| && Bytes(c) == b0[reqLen - len..]
      invariant Content(Snaps(c)[..i]) == []
      invariant om.pkthdrLen == old(om.pkthdrLen) && om.databuf == old(om.databuf) && om.pktLen == old(om.pktLen)
      invariant if len > 0 then GoneUpTo(Outline(c), s, reqLen, i) && reqLen - len == |Content(s[..i])|
                else FrontGone(Outline(c), s, reqLen)
      decreases |c| - i, len
    {
      FollowAt(om, c, i);
      GoneHere(c, s, reqLen, i);
      if m.len <= len {
        ghost var k := m.len;
        OneGone(Outline(c), s, reqLen, i);
        len := len - m.len;
        DropAll(om, c, i, m);
        DropDrop(b0, reqLen - len - k, k);
        m := m.next;
        i := i + 1;
      } else {
        PartGone(Outline(c), s, reqLen, i);
        DropSome(om, c, i, m, len);
        DropDrop(b0, reqLen - len, len);
        len := 0;
      }
    }
    if m == null {
      AllOf(c);
      if len > 0 {
        AllGone(Outline(c), s, reqLen, i);
      }
    }
    if om.IsPkthdr() {
      SetPktLen(om, c, U16(om.pktLen - (reqLen - len)));
    }
  }

  lemma AllOf(c: seq<Mbuf>)
    ensures Content(Snaps(c)[..|c|]) == Bytes(c)
  {
    assert Snaps(c)[..|c|] == Snaps(c);
  }

  /** The scan of os_mbuf_adj: the chain's length and its last buffer. */
  method Measure(om: Mbuf, ghost c: seq<Mbuf>) returns (count: nat, last: Mbuf)
    requires Packet(om, c)
    ensures c != [] && last == c[|c| - 1] && count == |Bytes(c)|
  {
    hide Linked, Snaps, Content, Sound, Buf.Data;
    ghost var i := 0;
    ghost var s := Snaps(c);
    SnapsAt(c);
    ContentNone(s);
    FollowAt(om, c, 0);
    last := om;
    count := 0;
    while true
      invariant i < |c| && last == c[i] && count == |Content(s[..i])|
      decreases |c| - i
    {
      DataLen(s, i);
      ContentUpTo(s, i);
      FollowAt(om, c, i);
      count := count + last.len;
      if last.next == null {
        break;
      }
      last := last.next;
      i := i + 1;
    }
    assert s[..i + 1] == s;
  }

  /** om_len = n in the i-th buffer: its bytes from n on are gone. */
  method Shorten(ghost om: Mbuf, ghost c: seq<Mbuf>, ghost i: nat, m: Mbuf, n: nat)
    requires Packet(om, c) && i < |c| && m == c[i] && n <= m.len
    modifies m`len
    ensures Packet(om, c) && m.len == n
    ensures |Content(old(Snaps(c))[..i])| + n <= |old(Bytes(c))|
    ensures Content(Snaps(c)[..i + 1]) == old(Bytes(c))[..|Content(old(Snaps(c))[..i])| + n]
  {
    hide Linked, Snaps, Content, Sound, Buf.Data;
    ghost var s := Snaps(c);
    SnapsAt(c);
    SoundAt(s, i);
    DataLen(s, i);
    m.len := n;
    Others(om, c, i);
    SnapsUpdate(c, s, i);
    SoundUpdate(s, i, m.Snap());
    DataCut(s[i], n);
    CutContent(s, i, n, m.Snap());
  }

  lemma CutContent(s: seq<Buf>, i: nat, n: nat, b: Buf)
    requires i < |s| && n <= |s[i].Data()| && b.Data() == s[i].Data()[..n]
    ensures |Content(s[..i])| + n <= |Content(s)|
    ensures Content(s[i := b][..i + 1]) == Content(s)[..|Content(s[..i])| + n]
  {
    hide *;
    var t := s[i := b];
    assert t[..i] == s[..i];
    ContentUpTo(t, i);
    ContentSplit(s, i);
    ContentFrom(s, i);
  }

  /** Ends the chain behind its i-th buffer and frees the rest. */
  method TossAfter(om: Mbuf, ghost c: seq<Mbuf>, ghost i: nat, m: Mbuf, ghost ps: Pools)
    requires Packet(om, c) && Owned(c, ps) && i < |c| && m == c[i]
    modifies m`next, ps.Keys
    ensures Packet(om, c[..i + 1]) && Owned(c[..i + 1], ps)
    ensures FreeBlocks(ps) + Set(c[..i + 1]) == old(FreeBlocks(ps)) + Set(c)
    ensures Snaps(c) == old(Snaps(c)) && Bytes(c[..i + 1]) == Content(old(Snaps(c))[..i + 1])
  {
    hide Snaps, Content, Sound, World, FreeBlocks;
    FollowAt(om, c, i);
    SnapsSlice(c, i + 1);
    SoundSlice(Snaps(c), i + 1);
    LinkedFrom(om, c, i + 1);
    OwnedSplit(om, c, i + 1, ps);
    if m.next != null {
      FreeChain(m.next, c[i + 1..], ps);
      m.next := null;
    }
  }

  /** The search of os_mbuf_adj for the buffer in which the packet is to end. */
  method FindEnd(om: Mbuf, ghost c: seq<Mbuf>, keep: nat) returns (m: Mbuf, count: nat, ghost i: nat)
    requires Packet(om, c) && keep <= |Bytes(c)|
    ensures i < |c| && m == c[i] && count <= m.len && keep == |Content(Snaps(c)[..i])| + count && (i > 0 ==> count > 0)
  {
    hide Linked, Snaps, Content, Sound, Bytes;
    ContentNone(Snaps(c));
    HeadAt(om, c);
    m, count, i := om, keep, 0;
    while m.len < count
      invariant i < |c| && m == c[i] && keep == |Content(Snaps(c)[..i])| + count && (i > 0 ==> count > 0)
      decreases |c| - i
    {
      NotAtEnd(om, c, i, count);
      count := count - m.len;
      m := m.next;
      i := i + 1;
    }
  }

  /** The last loop of os_mbuf_adj: the packet keeps its first `count` bytes. */
  method CutTo(om: Mbuf, ghost c: seq<Mbuf>, keep: nat, ghost ps: Pools) returns (ghost c': seq<Mbuf>)
    requires Packet(om, c) && Owned(c, ps) && keep <= |Bytes(c)|
    modifies c, ps.Keys
    ensures c' != [] && c' <= c && Packet(om, c') && Owned(c', ps)
    ensures FreeBlocks(ps) + Set(c') == old(FreeBlocks(ps)) + Set(c)
    ensures Bytes(c') == old(Bytes(c))[..keep] && (|c'| > 1 ==> c'[|c'| - 1].len > 0)
    ensures om.pkthdrLen == old(om.pkthdrLen) && om.pktLen == old(om.pktLen) && om.databuf == old(om.databuf)
  {
    hide Packet, Bytes, Snaps, Content, World, FreeBlocks, Owned, Set;
    var m, count, i := FindEnd(om, c, keep);
    assert m in c;
    Shorten(om, c, i, m, count);
    assert m == c[..i + 1][i];
    TossAfter(om, c, i, m, ps);
    c' := c[..i + 1];
  }

  lemma NotAtEnd(om: Mbuf, c: seq<Mbuf>, i: nat, count: nat)
    requires Packet(om, c) && i < |c| && c[i].len < count
    requires |Content(Snaps(c)[..i])| + count <= |Bytes(c)|
    ensures i + 1 < |c| && c[i].next == c[i + 1]
    ensures |Content(Snaps(c)[..i + 1])| == |Content(Snaps(c)[..i])| + c[i].len
  {
    hide Linked, Snaps, Content, Sound, Buf.Data;
    AllOf(c);
    SnapAt(c, i);
    DataLen(Snaps(c), i);
    ContentUpTo(Snaps(c), i);
    FollowAt(om, c, i);
  }

  /** os_mbuf_adj with a negative length: bytes leave the end, and buffers behind them are freed. */
  method AdjTail(om: Mbuf, ghost c: seq<Mbuf>, len: nat, ghost ps: Pools) returns (ghost c': seq<Mbuf>)
    requires Packet(om, c) && Owned(c, ps)
    modifies c, ps.Keys
    ensures c' != [] && c' <= c && Packet(om, c') && Owned(c', ps)
    ensures FreeBlocks(ps) + Set(c') == old(FreeBlocks(ps)) + Set(c)
    ensures Bytes(c') == old(Bytes(c))[..Max(0, |old(Bytes(c))| - len)]
    ensures om.pkthdrLen == old(om.pkthdrLen) && om.databuf == old(om.databuf)
    ensures !om.IsPkthdr() ==> om.pktLen == old(om.pktLen)
    ensures len <= old(c[|c| - 1].len) ==> c' == c
    ensures len > old(c[|c| - 1].len) && |c'| > 1 ==> c'[|c'| - 1].len > 0
    ensures om.IsPkthdr() ==>
        om.pktLen == if len <= old(c[|c| - 1].len) then U16(old(om.pktLen) - len) else U16(|Bytes(c')|)
    ensures om.IsPkthdr() && old(om.pktLen) == U16(|old(Bytes(c))|) ==> om.pktLen == U16(|Bytes(c')|)
  {
    hide Packet, Bytes, Snaps, Content, World, FreeBlocks, Owned, Set, U16;
    HeadAt(om, c);
    var total, last := Measure(om, c);
    var count: int := total;
    U16Sub(total, len);
    if last.len >= len {
      LastAt(om, c);
      assert last in c;
      Shorten(om, c, |c| - 1, last, last.len - len);
      AllOf(c);
      if om.IsPkthdr() {
        SetPktLen(om, c, U16(om.pktLen - len));
      }
      return c;
    }
    count := count - len;
    if count < 0 {
      count := 0;
    }
    if om.IsPkthdr() {
      SetPktLen(om, c, U16(count));
    }
    c' := CutTo(om, c, count, ps);
  }

  lemma LastAt(om: Mbuf, c: seq<Mbuf>)
    requires Packet(om, c) && c != []
    ensures |Bytes(c)| == |Content(Snaps(c)[..|c| - 1])| + c[|c| - 1].len
  {
    hide Linked, Snaps, Content, Sound, Buf.Data;
    var i := |c| - 1;
    SnapAt(c, i);
    DataLen(Snaps(c), i);
    ContentUpTo(Snaps(c), i);
    assert Snaps(c)[..i + 1] == Snaps(c);
  }

  /** What os_mbuf_adj promises for any length: a positive one cuts the front, a negative one the end. */
  function Trimmed(b: seq<byte>, reqLen: int): seq<byte> {
    if reqLen >= 0 then b[Min(reqLen, |b|)..] else b[..Max(0, |b| + reqLen)]
  }

  /** os_mbuf_adj */
  method Adj(om: Mbuf, ghost c: seq<Mbuf>, reqLen: int, ghost ps: Pools) returns (ghost c': seq<Mbuf>)
    requires Packet(om, c) && Owned(c, ps)
    modifies c, ps.Keys
    ensures c' != [] && c' <= c && (reqLen >= 0 ==> c' == c) && Packet(om, c') && Owned(c', ps)
    ensures FreeBlocks(ps) + Set(c') == old(FreeBlocks(ps)) + Set(c)
    ensures Bytes(c') == Trimmed(old(Bytes(c)), reqLen)
    ensures om.pkthdrLen == old(om.pkthdrLen) && om.databuf == old(om.databuf)
    ensures !om.IsPkthdr() ==> om.pktLen == old(om.pktLen)
    ensures om.IsPkthdr() && reqLen >= 0 ==> om.pktLen == U16(old(om.pktLen) - Min(reqLen, |old(Bytes(c))|))
    ensures reqLen >= 0 ==> FrontGone(Outline(c), old(Snaps(c)), reqLen)
    ensures reqLen < 0 ==> if -reqLen <= old(c[|c| - 1].len) then c' == c
                           else |c'| > 1 ==> c'[|c'| - 1].len > 0
    ensures om.IsPkthdr() && reqLen < 0 ==>
        om.pktLen == if -reqLen <= old(c[|c| - 1].len) then U16(old(om.pktLen) + reqLen) else U16(|Bytes(c')|)
    ensures om.IsPkthdr() && old(om.pktLen) == U16(|old(Bytes(c))|) ==> om.pktLen == U16(|Bytes(c')|)
  {
    hide Packet, Bytes, World, FreeBlocks, Owned, Set, U16, Outline, Snaps, FrontGone;
    HeadAt(om, c);
    if reqLen >= 0 {
      U16Sub(|Bytes(c)|, Min(reqLen, |Bytes(c)|));
      AdjHead(om, c, reqLen);
      c' := c;
    } else {
      c' := AdjTail(om, c, -reqLen, ps);
    }
  }

  /** Trimming both ends, in either order, is slicing the flat packet. */
  lemma TrimBothEnds(b: seq<byte>, front: int, back: int)
    requires front >= 0 && back >= 0
    ensures Trimmed(Trimmed(b, front), -back) == Trimmed(Trimmed(b, -back), front)
    ensures front + back <= |b| ==> Trimmed(Trimmed(b, front), -back) == b[front..|b| - back]
    ensures front + back >= |b| ==> Trimmed(Trimmed(b, front), -back) == []
  {
    if front + back <= |b| {
      if back > 0 {
        assert b[front..][..|b| - front - back] == b[front..|b| - back];
        assert b[..|b| - back][front..] == b[front..|b| - back];
      }
    }
  }

  /** The first loop of os_mbuf_trim_front: empty buffers behind the first one are freed. */
  method TrimEmpty(om: Mbuf, ghost c: seq<Mbuf>, ghost ps: Pools) returns (cur: Mbuf?, ghost i: nat)
    requires Packet(om, c) && Owned(c, ps) && c != []
    modifies om`next, ps.Keys
    ensures 0 < i <= |c| && cur == At(c, i) && (forall j | 0 < j < i :: c[j].len == 0) && (cur != null ==> cur.len != 0)
    ensures Packet(om, [om] + c[i..]) && Owned([om] + c[i..], ps) && Snaps(c) == old(Snaps(c))
    ensures FreeBlocks(ps) + Set([om] + c[i..]) == old(FreeBlocks(ps)) + Set(c)
    ensures Bytes([om] + c[i..]) == old(Bytes(c))
  {
    hide Packet, Bytes, World, FreeBlocks, Owned, Set, Snaps, Pool.Ok;
    FollowAt(om, c, 0);
    cur := om.next;
    i := 1;
    assert [om] + c[1..] == c;
    while cur != null && cur.len == 0
      invariant 0 < i <= |c| && cur == At(c, i) && Snaps(c) == old(Snaps(c))
      invariant forall j | 0 < j < i :: c[j].len == 0
      invariant Packet(om, [om] + c[i..]) && Owned([om] + c[i..], ps)
      invariant FreeBlocks(ps) + Set([om] + c[i..]) == old(FreeBlocks(ps)) + Set(c)
      invariant Bytes([om] + c[i..]) == old(Bytes(c))
      decreases |c| - i
    {
      ghost var d := [om] + c[i..];
      assert Without(d, 1) == [om] + c[i + 1..];
      PoolsOk(d, ps, cur.pool);
      assert cur == d[1];
      cur := RemoveNext(om, d, 0, om, cur, ps);
      i := i + 1;
    }
  }

  /** Replacing the first buffer's header area leaves its data alone. */
  lemma HeaderData(b: Buf, h: seq<byte>, n: uint16)
    requires b.Ok() && |h| <= b.off && b.pkthdrLen == 0 && (|h| == 0 || PKTHDR_SIZE <= |h| < 0x100)
    ensures var t := b.(databuf := Splice(b.databuf, 0, h), pkthdrLen := |h|, pktLen := n);
            t.Ok() && t.Data() == b.Data() && t.databuf[..|h|] == h
  {
    var d := Splice(b.databuf, 0, h);
    assert forall k | |h| <= k < |d| :: d[k] == d[|h|..][k - |h|] == b.databuf[|h|..][k - |h|];
  }

  /** The end of os_mbuf_trim_front: the header moves to the second buffer and the first one is freed. */
  method HandOver(om: Mbuf, ghost c: seq<Mbuf>, cur: Mbuf, ghost ps: Pools)
    requires Packet(om, c) && Owned(c, ps) && |c| >= 2 && cur == c[1] && om.len == 0 && cur.off >= om.pkthdrLen
    modifies cur, om.pool
    ensures Packet(cur, c[1..]) && Owned(c[1..], ps) && Bytes(c[1..]) == old(Bytes(c))
    ensures FreeBlocks(ps) + Set(c[1..]) == old(FreeBlocks(ps)) + Set(c)
    ensures cur.Header() == old(om.Header()) && cur.pkthdrLen == old(om.pkthdrLen)
    ensures cur.pktLen == if old(om.IsPkthdr()) then old(om.pktLen) else old(cur.pktLen)
    ensures cur.len == old(cur.len) && cur.off == old(cur.off)
  {
    hide Linked, Snaps, Content, Sound, World, FreeBlocks, Set, Splice, Buf.Data, Buf.Ok;
    ghost var t := Snaps(c[1..]);
    BehindHead(om, c, ps);
    var h := om.databuf[..om.pkthdrLen];
    HeaderData(cur.Snap(), h, if om.IsPkthdr() then om.pktLen else cur.pktLen);
    assert forall j | 0 <= j < |c[1..]| :: c[1..][j].Snap() == t[j];
    cur.pkthdrLen := om.pkthdrLen;
    cur.databuf := Splice(cur.databuf, 0, h);
    if om.IsPkthdr() {
      cur.pktLen := om.pktLen;
    }
    Others(cur, c[1..], 0);
    SnapsUpdate(c[1..], t, 0);
    SoundUpdate(t, 0, cur.Snap());
    ContentSame(t, 0, cur.Snap());
    Free(om, ps);
  }

  /** The chain behind an empty first buffer holds the whole packet. */
  lemma BehindHead(om: Mbuf, c: seq<Mbuf>, ps: Pools)
    requires Packet(om, c) && Owned(c, ps) && |c| >= 2 && om.len == 0
    ensures Packet(c[1], c[1..]) && Bytes(c[1..]) == Bytes(c)
    ensures forall j | 0 <= j < |c[1..]| :: c[1..][j].Snap() == Snaps(c[1..])[j]
    ensures om.pkthdrLen <= |om.databuf| && c[1].Snap().Ok() && c[1].pkthdrLen == 0
    ensures om.pkthdrLen == 0 || PKTHDR_SIZE <= om.pkthdrLen < 0x100
    ensures om !in FreeBlocks(ps) && om.pool in ps && om in Set(c) && Set(c[1..]) == Set(c) - {om}
    ensures om !in c[1..] && forall j | 0 <= j < |c[1..]| :: c[1..][j].pool in ps
    ensures om.Header() == om.databuf[..om.pkthdrLen]
  {
    hide Linked, Snaps, Content, Sound, World, FreeBlocks, Set, Buf.Data;
    var s := Snaps(c);
    SnapsAt(c);
    SnapsAt(c[1..]);
    FollowAt(om, c, 0);
    SoundAt(s, 0);
    SoundAt(s, 1);
    DataLen(s, 0);
    LinkedFrom(om, c, 1);
    SnapsSlice(c, 1);
    SoundSlice(s, 1);
    assert s[0..] == s;
    ContentFrom(s, 0);
    OwnedWithout(om, c, 0, ps);
    assert Without(c, 0) == c[1..];
    NotBehind(om, c);
  }

  /** os_mbuf_trim_front: z is the first buffer that holds bytes. */
  method TrimFront(om: Mbuf, ghost c: seq<Mbuf>, ghost ps: Pools)
    returns (r: Mbuf, ghost c': seq<Mbuf>, ghost z: nat)
    requires Packet(om, c) && Owned(c, ps) && c != []
    modifies c, ps.Keys
    ensures Packet(r, c') && Owned(c', ps) && Bytes(c') == old(Bytes(c))
    ensures FreeBlocks(ps) + Set(c') == old(FreeBlocks(ps)) + Set(c)
    ensures r.pkthdrLen == old(om.pkthdrLen) && r.Header() == old(om.Header())
    ensures old(om.IsPkthdr()) ==> r.pktLen == old(om.pktLen)
    ensures z <= |c| && (forall j | 0 <= j < z :: old(c[j].len) == 0) && (z < |c| ==> old(c[z].len) != 0)
    ensures forall j | 0 <= j < |c| :: c[j].off == old(c[j].off) && c[j].len == old(c[j].len)
    ensures c' == if z == 0 then c
                  else if z == |c| then [om]
                  else if old(c[z].off) >= old(om.pkthdrLen) then c[z..]
                  else [om] + c[z..]
  {
    hide Packet, Bytes, World, FreeBlocks, Owned, Set, Snaps, Mbuf.Header;
    HeadAt(om, c);
    if om.len != 0 {
      return om, c, 0;
    }
    var cur, i := TrimEmpty(om, c, ps);
    z := i;
    c' := [om] + c[i..];
    r := om;
    if cur != null {
      assert c'[0] == om && c'[1] == cur && c'[1..] == c[i..] && cur in c;
      NotHeader(om, c', 1);
      PoolsOk(c', ps, om.pool);
      if cur.LeadingSpace() >= om.pkthdrLen {
        HandOver(om, c', cur, ps);
        r, c' := cur, c[i..];
      }
    }
  }
}
