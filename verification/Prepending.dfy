// os_mbuf_prepend: room for more bytes in front of a packet.
module Prepending {
  import opened ByteSeqs
  import opened Bufs
  import opened Mbufs
  import opened Appending

  lemma MoreInFront(b: Buf, n: nat)
    requires b.Ok() && n <= b.off - b.pkthdrLen
    ensures var t := b.(off := b.off - n, len := b.len + n);
            t.Ok() && |t.Data()| == |b.Data()| + n && t.Data()[n..] == b.Data()
  {
  }

  lemma ContentHead(s: seq<Buf>, b: Buf, n: nat)
    requires s != [] && n <= |b.Data()| && b.Data()[n..] == s[0].Data()
    ensures |Content(s[0 := b])| == |Content(s)| + n && Content(s[0 := b])[n..] == Content(s)
  {
    assert s[0 := b][1..] == s[1..];
    assert (b.Data() + Content(s[1..]))[n..] == b.Data()[n..] + Content(s[1..]);
  }

  /** om_data -= n; om_len += n; the header's length field follows. */
  method GrowHead(om: Mbuf, ghost c: seq<Mbuf>, n: nat)
    requires Packet(om, c) && n <= om.LeadingSpace()
    modifies om`off, om`len, om`pktLen
    ensures Packet(om, c)
    ensures |Bytes(c)| == |old(Bytes(c))| + n && Bytes(c)[n..] == old(Bytes(c))
    ensures om.pktLen == if om.IsPkthdr() then U16(old(om.pktLen) + n) else old(om.pktLen)
    ensures om.LeadingSpace() == old(om.LeadingSpace()) - n && om.len == old(om.len) + n
    ensures om.TrailingSpace() == old(om.TrailingSpace())
  {
    hide Linked, Snaps, Content, Sound, Buf.Data, U16;
    ghost var s := Snaps(c);
    SnapsAt(c);
    HeadAt(om, c);
    SoundAt(s, 0);
    MoreInFront(om.Snap(), n);
    om.off := om.off - n;
    om.len := om.len + n;
    if om.IsPkthdr() {
      om.pktLen := U16(om.pktLen + n);
    }
    assert om.Snap().Data() == s[0].(off := om.off, len := om.len).Data() by {
      SamePlace(om.Snap(), s[0].(off := om.off, len := om.len));
    }
    Others(om, c, 0);
    SnapsUpdate(c, s, 0);
    SoundUpdate(s, 0, om.Snap());
    ContentHead(s, om.Snap(), n);
  }

  lemma SamePlace(a: Buf, b: Buf)
    requires a.databuf == b.databuf && a.off == b.off && a.len == b.len
    ensures a.Data() == b.Data()
  {
  }

  lemma HeaderGone(om: Mbuf, c: seq<Mbuf>, s: seq<Buf>)
    requires Linked(om, c) && c != [] && |s| == |c| && Sound(s) && om.pkthdrLen == 0
    requires forall j | 0 <= j < |c| :: c[j] == om || c[j].Snap() == s[j]
    requires om.Snap() == s[0].(pkthdrLen := 0)
    ensures Sound(Snaps(c)) && Bytes(c) == Content(s)
  {
    hide Linked, Snaps, Content;
    NextAt(om, c, 0);
    Others(om, c, 0);
    SnapsUpdate(c, s, 0);
    SoundAt(s, 0);
    SoundUpdate(s, 0, om.Snap());
    ContentSame(s, 0, om.Snap());
  }

  lemma HeadReady(om: Mbuf, c: seq<Mbuf>, ps: Pools)
    requires Packet(om, c) && Owned(c, ps)
    ensures c != [] && om == c[0] && Linked(om, c) && Sound(Snaps(c)) && om.Snap().Ok() && Bytes(c) == Content(Snaps(c))
    ensures forall j | 0 <= j < |c| :: c[j].Snap() == Snaps(c)[j]
    ensures World(ps) && om.pool in ps && om.pool.databufLen > 0 && Set(c) !! FreeBlocks(ps)
    ensures forall i | 0 <= i < |c| :: c[i].pool in ps && c[i] !in om.pool.free
    ensures om !in om.pool.free && (om.pkthdrLen == 0 ==> om.Header() == [])
    ensures om.pkthdrLen == 0 || (om.IsPkthdr() && HeaderFits(om.pool, om.pkthdrLen - PKTHDR_SIZE))
  {
    hide Linked, Snaps, Sound, World, FreeBlocks, Set, Content;
    HeadAt(om, c);
    SnapsAt(c);
    SoundAt(Snaps(c), 0);
    PoolsOk(c, ps, om.pool);
  }

  lemma HeadGeometry(om: Mbuf, c: seq<Mbuf>)
    requires Packet(om, c)
    ensures om.LeadingSpace() == om.off - om.pkthdrLen >= 0 && om.pkthdrLen <= om.pool.databufLen
  {
    hide Linked, Snaps;
    HeadAt(om, c);
    SnapAt(c, 0);
    SoundAt(Snaps(c), 0);
  }

  /** Puts an empty buffer in front of the chain: the header moves, the data pointer goes to the end of the
      data area. */
  method Attach(p: Mbuf, om: Mbuf, ghost c: seq<Mbuf>)
    requires Packet(om, c) && p !in c && p.Snap().Ok() && p.len == 0 && p.pool == om.pool
    requires p.off == p.pkthdrLen == om.pkthdrLen
    modifies p, om`pkthdrLen
    ensures Packet(p, [p] + c) && Bytes([p] + c) == old(Bytes(c))
    ensures p.pkthdrLen == old(om.pkthdrLen) && p.off == p.pool.databufLen && p.len == 0
    ensures p.Header() == old(om.Header()) && (p.IsPkthdr() ==> p.pktLen == old(om.pktLen))
  {
    hide Linked, Snaps, Content, Sound, Buf.Data, Mbuf.Header;
    ghost var s := Snaps(c);
    SnapsAt(c);
    HeadAt(om, c);
    SoundAt(s, 0);
    Headerless(om);
    if om.IsPkthdr() {
      CopyPkthdr(p, om);
      om.pkthdrLen := 0;
    }
    Headerless(p);
    p.off := p.off + p.TrailingSpace();
    p.next := om;
    HeaderGone(om, c, s);
    NoData(p.Snap());
    ConsPacket(p, c);
  }

  /** A new head in front of the chain, its data pointer at the end of the data area. */
  method NewHead(om: Mbuf, ghost c: seq<Mbuf>, ghost ps: Pools) returns (p: Mbuf?)
    requires Packet(om, c) && Owned(c, ps)
    modifies om.pool, om.pool.free, om`pkthdrLen
    ensures World(ps) && (p == null <==> old(om.pool.free) == [])
    ensures p == null ==> Packet(om, c) && Owned(c, ps) && FreeBlocks(ps) == old(FreeBlocks(ps))
    ensures p != null ==>
        && Packet(p, [p] + c) && Owned([p] + c, ps) && FreeBlocks(ps) + Set([p] + c) == old(FreeBlocks(ps)) + Set(c)
    ensures p != null ==> p == old(om.pool.free)[0] && om.pool.free == old(om.pool.free)[1..] && p.pool == om.pool
    ensures p != null ==>
        && Bytes([p] + c) == old(Bytes(c)) && p.pkthdrLen == old(om.pkthdrLen) && p.off == om.pool.databufLen
        && p.len == 0
    ensures p != null ==> p.Header() == old(om.Header()) && (p.IsPkthdr() ==> p.pktLen == old(om.pktLen))
  {
    hide World, FreeBlocks, Owned, Set, Buf.Data, Mbuf.Header, HeaderFits, Packet, Bytes;
    HeadReady(om, c, ps);
    if om.IsPkthdr() {
      p := GetPkthdr(om.pool, om.pkthdrLen - PKTHDR_SIZE, ps);
    } else {
      p := Get(om.pool, 0, ps);
    }
    if p == null {
      OwnedAgain(c, ps);
      return;
    }
    OwnedCons(p, c, ps, old(FreeBlocks(ps)));
    Attach(p, om, c);
  }

  /** The packet is n new bytes followed by `bytes`. */
  ghost predicate Behind(c: seq<Mbuf>, bytes: seq<byte>, n: int)
    reads c
  {
    0 <= n <= |Bytes(c)| && Bytes(c)[n..] == bytes
  }

  lemma BehindIs(c: seq<Mbuf>, bytes: seq<byte>, n: int)
    ensures Behind(c, bytes, n) <==> 0 <= n <= |Bytes(c)| && Bytes(c)[n..] == bytes
    ensures Behind(c, bytes, n) ==> |Bytes(c)| == |bytes| + n
  {
    hide Bytes;
  }

  /** Fills the space in front of the head's data, as far as needed; `bytes` is what follows the new bytes. */
  method UseFront(head: Mbuf, ghost c: seq<Mbuf>, rem: nat, ghost bytes: seq<byte>, ghost done: nat, ghost base: uint16)
    returns (left: nat)
    requires head.IsPkthdr() ==> head.pktLen == U16(base + done)
    requires Packet(head, c) && Behind(c, bytes, done)
    modifies head`off, head`len, head`pktLen
    ensures Packet(head, c) && left == Max(0, rem - old(head.LeadingSpace()))
    ensures Behind(c, bytes, done + rem - left)
    ensures head.IsPkthdr() ==> head.pktLen == U16(base + done + rem - left)
    ensures head.LeadingSpace() == old(head.LeadingSpace()) - (rem - left) >= 0
    ensures head.len == old(head.len) + rem - left && head.TrailingSpace() == old(head.TrailingSpace())
  {
    hide Packet, Bytes, U16;
    HeadGeometry(head, c);
    var leading := Min(rem, head.LeadingSpace());
    ghost var b := Bytes(c);
    U16Add(base + done, leading);
    GrowHead(head, c, leading);
    left := rem - leading;
    assert Bytes(c)[done + leading..] == Bytes(c)[leading..][done..];
  }

  /** One round of the loop: the head's leading space is used up and, if that is not enough, a new head is added. */
  method OneRound(head: Mbuf, ghost c: seq<Mbuf>, rem: nat, ghost bytes: seq<byte>, ghost done: nat,
                  ghost base: uint16, ghost ps: Pools)
    returns (left: nat, p: Mbuf?)
    requires head.IsPkthdr() ==> head.pktLen == U16(base + done)
    requires Packet(head, c) && Owned(c, ps) && Behind(c, bytes, done)
    modifies head, head.pool, head.pool.free
    ensures World(ps) && left == Max(0, rem - old(head.LeadingSpace()))
    ensures left == 0 ==>
        && Packet(head, c) && Owned(c, ps) && FreeBlocks(ps) == old(FreeBlocks(ps))
        && head.pool.free == old(head.pool.free)
    ensures left == 0 ==> Behind(c, bytes, done + rem) && (head.IsPkthdr() ==> head.pktLen == U16(base + done + rem))
    ensures left == 0 ==> head.pkthdrLen == old(head.pkthdrLen) && head.Header() == old(head.Header())
    ensures left == 0 ==> head.len == old(head.len) + rem && head.TrailingSpace() == old(head.TrailingSpace())
    ensures left > 0 ==> (p == null <==> old(head.pool.free) == [])
    ensures left > 0 && p == null ==> Packet(head, c) && Owned(c, ps) && FreeBlocks(ps) == old(FreeBlocks(ps))
    ensures left > 0 && p != null ==>
        && Packet(p, [p] + c) && Owned([p] + c, ps) && FreeBlocks(ps) + Set([p] + c) == old(FreeBlocks(ps)) + Set(c)
    ensures left > 0 && p != null ==>
        && p == old(head.pool.free)[0] && head.pool.free == old(head.pool.free)[1..] && p.pool == head.pool
    ensures left > 0 && p != null ==>
        && Behind([p] + c, bytes, done + rem - left) && (p.IsPkthdr() ==> p.pktLen == U16(base + done + rem - left))
    ensures left > 0 && p != null ==> p.pkthdrLen == old(head.pkthdrLen) && p.Header() == old(head.Header())
    ensures left > 0 && p != null ==>
        && p.len == 0 && p.TrailingSpace() == 0 && p.LeadingSpace() == head.pool.databufLen - p.pkthdrLen >= 0
  {
    hide Packet, Bytes, U16, Owned, World, FreeBlocks, Set, Mbuf.Header, Behind, Pool.Ok, Mbuf.LeadingSpace;
    HeadAt(head, c);
    PoolsOk(c, ps, head.pool);
    p := null;
    left := UseFront(head, c, rem, bytes, done, base);
    if left > 0 {
      BehindIs(c, bytes, done + rem - left);
      p := NewHead(head, c, ps);
      if p != null {
        HeadGeometry(p, [p] + c);
        BehindIs([p] + c, bytes, done + rem - left);
      }
    }
  }

  /** What n new heads offer, each with d bytes behind the header. */
  function HeadCapacity(n: nat, d: int): int {
    n * d
  }

  lemma HeadCapacityStep(n: nat, d: int)
    ensures HeadCapacity(0, d) == 0 && HeadCapacity(n + 1, d) == HeadCapacity(n, d) + d
  {
  }

  /** How far the loop has come after k of n new heads: rem of len bytes are missing and the head has ls bytes
      in front. */
  predicate Progress(k: nat, n: nat, d: int, lead: int, len: nat, rem: nat, ls: int) {
    && k <= n && ls >= 0
    && ls + HeadCapacity(n - k, d) - rem == lead + HeadCapacity(n, d) - len
    && (k == 0 ==> rem == len && ls == lead)
    && (k > 0 ==> ls == d && rem > 0 && rem == len - lead - HeadCapacity(k - 1, d))
  }

  lemma ProgressStart(n: nat, d: int, lead: int, len: nat)
    requires lead >= 0
    ensures Progress(0, n, d, lead, len, len, lead)
  {
  }

  lemma ProgressNext(k: nat, n: nat, d: int, lead: int, len: nat, rem: nat, ls: int)
    requires Progress(k, n, d, lead, len, rem, ls) && rem > ls && d >= 0
    ensures ls >= 0 && (k < n ==> Progress(k + 1, n, d, lead, len, rem - ls, d))
    ensures k == n ==> len > lead + HeadCapacity(n, d)
  {
    hide HeadCapacity;
    HeadCapacityStep(0, d);
    if k < n {
      HeadCapacityStep(n - k - 1, d);
      HeadCapacityStep(if k > 0 then k - 1 else 0, d);
    }
  }

  lemma ProgressEnd(k: nat, n: nat, d: int, lead: int, len: nat, rem: nat, ls: int)
    requires Progress(k, n, d, lead, len, rem, ls) && rem <= ls && d >= 0
    ensures len <= lead + HeadCapacity(n, d) && (k == 0 ==> len <= lead && rem == len)
    ensures k > 0 ==> rem > 0 && lead + HeadCapacity(k - 1, d) + rem == len
  {
    hide HeadCapacity;
    HeadCapacityNotNegative(n - k, d);
  }

  /** os_mbuf_prepend: the new bytes at the front are indeterminate. */
  method Prepend(om: Mbuf, ghost c: seq<Mbuf>, len: nat, ghost ps: Pools)
    returns (r: Mbuf?, ghost c': seq<Mbuf>, ghost k: nat)
    requires Packet(om, c) && Owned(c, ps)
    modifies c, ps.Keys, om.pool.free
    ensures World(ps) && FreeBlocks(ps) + Set(c') == old(FreeBlocks(ps)) + Set(c)
    ensures r == null <==>
        len > old(om.LeadingSpace()) + HeadCapacity(|old(om.pool.free)|, om.pool.databufLen - old(om.pkthdrLen))
    ensures r == null ==> c' == []
    ensures r != null ==> Packet(r, c') && Owned(c', ps)
    ensures r != null ==> |Bytes(c')| == |old(Bytes(c))| + len && Bytes(c')[len..] == old(Bytes(c))
    ensures r != null ==> r.pkthdrLen == old(om.pkthdrLen) && r.Header() == old(om.Header())
    ensures r != null && r.IsPkthdr() ==> r.pktLen == U16(old(om.pktLen) + len)
    ensures r != null ==> r.pool == om.pool && k <= |old(om.pool.free)| && om.pool.free == old(om.pool.free)[k..]
    ensures r != null && k == 0 ==> r == om && r.len == old(om.len) + len && len <= old(om.LeadingSpace())
    ensures r != null && k > 0 ==> r.TrailingSpace() == 0 && 0 < r.len
    ensures r != null && k > 0
        ==> old(om.LeadingSpace()) + HeadCapacity(k - 1, om.pool.databufLen - old(om.pkthdrLen)) + r.len == len
  {
    hide Linked, Snaps, Content, Sound, World, FreeBlocks, Owned, Set, Packet, Bytes, Mbuf.Header, U16, HeadCapacity,
         Mbuf.LeadingSpace, Behind, Pool.Ok, At, Progress;
    HeadAt(om, c);
    PoolsOk(c, ps, om.pool);
    BehindIs(c, Bytes(c), 0);
    ghost var bytes, F, d := Bytes(c), om.pool.free, om.pool.databufLen - om.pkthdrLen;
    ghost var stock, hlen, header, base, l0 := FreeBlocks(ps) + Set(c), om.pkthdrLen, om.Header(), om.pktLen, om.len;
    k := 0;
    ghost var lead := om.LeadingSpace();
    U16Same(om.pktLen);
    HeadGeometry(om, c);
    ProgressStart(|F|, d, lead, len);
    var rem: nat := len;
    var head: Mbuf := om;
    c' := c;
    while true
      invariant Packet(head, c') && Owned(c', ps) && head.pool == om.pool && (head == om || head in F)
      invariant FreeBlocks(ps) + Set(c') == stock
      invariant k <= |F| && om.pool.free == F[k..]
      invariant rem <= len && Behind(c', bytes, len - rem)
      invariant head.pkthdrLen == hlen && head.Header() == header
      invariant head.IsPkthdr() ==> head.pktLen == U16(base + len - rem)
      invariant Progress(k, |F|, d, lead, len, rem, head.LeadingSpace())
      invariant if k == 0 then head == om && head.len == l0 else head.TrailingSpace() == 0 && head.len == 0
      decreases |F| - k
    {
      ghost var rem0, ls := rem, head.LeadingSpace();
      var p;
      rem, p := OneRound(head, c', rem, bytes, len - rem, base, ps);
      if rem == 0 {
        ProgressEnd(k, |F|, d, lead, len, rem0, ls);
        break;
      }
      ProgressNext(k, |F|, d, lead, len, rem0, ls);
      if p == null {
        HeadAt(head, c');
        FreeChain(head, c', ps);
        EmptyChain(ps);
        return null, [], k;
      }
      c' := [p] + c';
      head := p;
      k := k + 1;
    }
    PoolsOk(c', ps, om.pool);
    BehindIs(c', bytes, len);
    r := head;
  }

  lemma HeadCapacityNotNegative(n: nat, d: int)
    requires d >= 0
    ensures HeadCapacity(n, d) >= 0
  {
  }
}
