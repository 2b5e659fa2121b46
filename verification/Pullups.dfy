// os_mbuf_pullup: making the front of a packet contiguous.
module Pullups {
  import opened ByteSeqs
  import opened Bufs
  import opened Mbufs
  import opened Prepending

  /** The state of the copy loop: om2 collects the front of the packet, d is the chain still to be read. */
  ghost predicate Pulling(om2: Mbuf, d: seq<Mbuf>, ps: Pools)
    reads om2, d, ps.Keys
  {
    Linked(At(d, 0), d) && Sound(Snaps(d)) && om2.Snap().Ok() && om2 !in d && Owned([om2] + d, ps)
  }

  /** The packet: what has been collected, then what is left. */
  ghost function Collected(om2: Mbuf, d: seq<Mbuf>): seq<byte>
    reads om2, d
  {
    om2.Snap().Data() + Bytes(d)
  }

  lemma ContentCons(s: seq<Buf>)
    requires s != []
    ensures Content(s) == s[0].Data() + Content(s[1..])
  {
  }

  /** The chain behind its first buffer. */
  lemma TailChain(om: Mbuf?, d: seq<Mbuf>, ps: Pools, om2: Mbuf)
    requires Linked(om, d) && d != [] && Sound(Snaps(d)) && om2 !in d && Owned([om2] + d, ps)
    ensures om == d[0] && d[0].next == At(d, 1) && Linked(At(d, 1), d[1..]) && Sound(Snaps(d[1..]))
    ensures d[0].Snap().Ok() && om2 !in d[1..] && d[0] !in d[1..]
    ensures Bytes(d) == d[0].Snap().Data() + Bytes(d[1..])
    ensures |d| > 1 ==> d[1].pkthdrLen == 0
    ensures World(ps) && d[0].pool in ps && d[0] !in FreeBlocks(ps) && d[0] in Set([om2] + d)
    ensures Set([om2] + d[1..]) == Set([om2] + d) - {d[0]}
    ensures forall i | 0 <= i < |[om2] + d[1..]| :: ([om2] + d[1..])[i].pool in ps
  {
    hide Linked, Snaps, Content, Sound, Buf.Data, World, FreeBlocks;
    var s := Snaps(d);
    NextAt(om, d, 0);
    SnapAt(d, 0);
    SoundAt(s, 0);
    if |d| > 1 {
      SnapAt(d, 1);
      SoundAt(s, 1);
    }
    ContentCons(s);
    SnapsSlice(d, 1);
    SoundSlice(s, 1);
    LinkedFrom(om, d, 1);
    HeadOnce(om, d, om2);
    assert ([om2] + d)[1] == d[0];
    var e, f := [om2] + d, [om2] + d[1..];
    assert forall i | 0 <= i < |f| :: f[i] == if i == 0 then e[0] else e[i + 1];
  }

  lemma HeadOnce(om: Mbuf?, d: seq<Mbuf>, om2: Mbuf)
    requires Linked(om, d) && d != [] && om2 !in d
    ensures d[0] !in d[1..]
    ensures Set([om2] + d[1..]) == Set([om2] + d) - {d[0]} && d[0] in Set([om2] + d)
  {
    assert d == [d[0]] + d[1..];
  }

  /** Moves the first buffer's data on, all of it: the buffer is freed. */
  method PullAll(om2: Mbuf, om: Mbuf, ghost d: seq<Mbuf>, ghost ps: Pools) returns (next: Mbuf?)
    requires d != [] && om == d[0] && Pulling(om2, d, ps) && om.len <= om2.TrailingSpace()
    modifies om2`databuf, om2`len, om`len, om.pool
    ensures Pulling(om2, d[1..], ps) && next == At(d, 1) && (|d| > 1 ==> d[1].pkthdrLen == 0)
    ensures FreeBlocks(ps) + Set([om2] + d[1..]) == old(FreeBlocks(ps)) + Set([om2] + d)
    ensures Collected(om2, d[1..]) == old(Collected(om2, d)) && om2.len == old(om2.len) + old(om.len)
    ensures om2.Header() == old(om2.Header())
  {
    hide Linked, Snaps, Content, Sound, Buf.Data, World, FreeBlocks, Set;
    TailChain(om, d, ps, om2);
    DataCut(om.Snap(), om.len);
    ghost var x := om.Snap().Data();
    om2.Fill(om.Snap().Data()[..om.len]);
    om.len := 0;
    next := om.next;
    Free(om, ps);
    assert Collected(om2, d[1..]) == old(om2.Snap().Data()) + x + Bytes(d[1..]);
    assert old(om2.Snap().Data()) + (x + Bytes(d[1..])) == old(om2.Snap().Data()) + x + Bytes(d[1..]);
  }

  /** Moves the first n bytes of the first buffer's data on; the buffer keeps the others. */
  method PullSome(om2: Mbuf, om: Mbuf, ghost d: seq<Mbuf>, n: nat, ghost ps: Pools)
    requires d != [] && om == d[0] && Pulling(om2, d, ps) && n < om.len && n <= om2.TrailingSpace()
    modifies om2`databuf, om2`len, om`len, om`off
    ensures Pulling(om2, d, ps) && om2.len == old(om2.len) + n
    ensures Collected(om2, d) == old(Collected(om2, d))
    ensures om2.Header() == old(om2.Header())
  {
    hide Linked, Snaps, Content, Sound, Buf.Data, World, FreeBlocks, Set, Owned;
    ghost var s := Snaps(d);
    SnapsAt(d);
    SoundAt(s, 0);
    DataCut(om.Snap(), n);
    ghost var x := om.Snap().Data();
    om2.Fill(om.Snap().Data()[..n]);
    om.len := om.len - n;
    om.off := om.off + n;
    Others(om, d, 0);
    SnapsUpdate(d, s, 0);
    SoundUpdate(s, 0, om.Snap());
    ContentCons(s);
    ContentCons(Snaps(d));
    assert Snaps(d)[1..] == s[1..];
    Regroup(old(om2.Snap().Data()), x, n, Content(s[1..]));
  }

  /** The first n bytes of the buffers s end in the z-th, or together with the one before it. */
  ghost predicate FrontEnds(s: seq<Buf>, n: nat, z: nat) {
    && 0 < z <= |s| && |Content(s[..z - 1])| < n && |Content(s[..z])| <= n
    && (|Content(s[..z])| == n || (z < |s| && n < |Content(s[..z + 1])|))
  }

  /** The same in the loop, where z may be 0. */
  ghost predicate StopsAt(s: seq<Buf>, n: nat, z: nat) {
    && z <= |s| && |Content(s[..z])| <= n && (z > 0 ==> |Content(s[..z - 1])| < n)
    && (|Content(s[..z])| == n || (z < |s| && n < |Content(s[..z + 1])|))
  }

  /** The do-while loop of os_mbuf_pullup: `need` more bytes go to om2. */
  method PullLoop(om2: Mbuf, src: Mbuf, ghost c: seq<Mbuf>, need: nat, ghost ps: Pools)
    returns (len: nat, rest: Mbuf?, ghost d: seq<Mbuf>, ghost z: nat)
    requires c != [] && src == c[0] && Pulling(om2, c, ps) && 0 < need <= om2.TrailingSpace()
    requires c[0].pkthdrLen == 0 || c[0].len < need
    modifies om2`databuf, om2`len, c, ps.Keys
    ensures Pulling(om2, d, ps) && rest == At(d, 0) && (d != [] ==> d[0].pkthdrLen == 0)
    ensures FreeBlocks(ps) + Set([om2] + d) == old(FreeBlocks(ps)) + Set([om2] + c)
    ensures Collected(om2, d) == old(Collected(om2, c))
    ensures om2.len == old(om2.len) + need - len && len <= need && (len > 0 ==> d == [])
    ensures z <= |c| && d == c[z..] && (len == 0 ==> StopsAt(old(Snaps(c)), need, z))
    ensures om2.off == old(om2.off) && om2.pkthdrLen == old(om2.pkthdrLen) && om2.pktLen == old(om2.pktLen)
    ensures om2.Header() == old(om2.Header())
  {
    hide Pulling, Collected, FreeBlocks, Set, Mbuf.Header, Snaps, Content, StopsAt, Sound;
    OneAside(om2, c, ps);
    SnapsAt(c);
    ghost var s := Snaps(c);
    ContentNone(s);
    len := need;
    var om: Mbuf? := src;
    ghost var i := 0;
    d := c[0..];
    assert d == c;
    while true
      invariant i < |c| && d == c[i..] && om == d[0]
      invariant Pulling(om2, d, ps)
      invariant FreeBlocks(ps) + Set([om2] + d) == old(FreeBlocks(ps)) + Set([om2] + c)
      invariant Collected(om2, d) == old(Collected(om2, c))
      invariant om2.len == old(om2.len) + need - len && 0 < len <= om2.TrailingSpace() && len <= need
      invariant need - len == |Content(s[..i])| && forall j | i <= j < |c| :: c[j].len == s[j].len
      invariant om.pkthdrLen == 0 || om.len < len
      invariant om2.off == old(om2.off) && om2.pkthdrLen == old(om2.pkthdrLen) && om2.pktLen == old(om2.pktLen)
      invariant om2.Header() == old(om2.Header())
      decreases |c| - i
    {
      var count := Min(len, om.len);
      OneOn(s, i);
      if i > 0 {
        OneOn(s, i - 1);
      }
      z := i;
      len := len - count;
      if count < om.len {
        StopHere(s, need, i, len == 0);
        PullSome(om2, om, d, count, ps);
      } else {
        StopHere(s, need, i + 1, len == 0);
        PoolOfFirst(om2, d, ps);
        om := PullAll(om2, om, d, ps);
        d := d[1..];
        i := i + 1;
        z := i;
      }
      if !(len > 0 && om != null) {
        break;
      }
    }
    rest := om;
  }

  lemma StopHere(s: seq<Buf>, n: nat, z: nat, here: bool)
    requires z <= |s| && (here ==> |Content(s[..z])| <= n && (z > 0 ==> |Content(s[..z - 1])| < n))
    requires here ==> |Content(s[..z])| == n || (z < |s| && n < |Content(s[..z + 1])|)
    ensures here ==> StopsAt(s, n, z)
  {
  }

  lemma OneAside(om2: Mbuf, d: seq<Mbuf>, ps: Pools)
    requires Pulling(om2, d, ps)
    ensures (forall i | 0 <= i < |d| :: d[i] != om2) && forall i, j | 0 <= i < j < |d| :: d[i] != d[j]
    ensures Sound(Snaps(d))
  {
  }

  lemma PoolOfFirst(om2: Mbuf, d: seq<Mbuf>, ps: Pools)
    requires Pulling(om2, d, ps) && d != []
    ensures d[0].pool in ps
  {
    assert ([om2] + d)[1] == d[0];
  }

  lemma PullBehindHead(om: Mbuf, c: seq<Mbuf>, ps: Pools)
    requires Packet(om, c) && Owned(c, ps)
    ensures c != [] && om == c[0] && om.next == At(c, 1) && [om] + c[1..] == c && om.Snap().Ok()
    ensures Pulling(om, c[1..], ps) && Collected(om, c[1..]) == Bytes(c)
    ensures |c| > 1 ==> c[1].pkthdrLen == 0
    ensures World(ps) && om.pool in ps && Linked(om, c) && om !in om.pool.free && |Bytes(c)| >= om.len
    ensures |om.Snap().Data()| == om.len && (|c| == 1 ==> |Bytes(c)| == om.len)
    ensures forall i | 0 <= i < |c| :: c[i] !in om.pool.free
  {
    hide Linked, Snaps, Content, Sound, Buf.Data, World, FreeBlocks, Set;
    HeadAt(om, c);
    PoolsOk(c, ps, om.pool);
    var s := Snaps(c);
    NextAt(om, c, 0);
    SnapAt(c, 0);
    SoundAt(s, 0);
    DataLen(s, 0);
    NotBehind(om, c);
    SnapsSlice(c, 1);
    SoundSlice(s, 1);
    LinkedFrom(om, c, 1);
    ContentCons(s);
    ContentNone(s);
    assert [om] + c[1..] == c;
    if |c| > 1 {
      NotHeader(om, c, 1);
    }
  }

  /** The lengths once the loop has ended. */
  lemma CollectedLen(om2: Mbuf, d: seq<Mbuf>, ps: Pools)
    requires Pulling(om2, d, ps)
    ensures |Collected(om2, d)| == om2.len + |Bytes(d)| && (d == [] ==> Bytes(d) == [])
    ensures World(ps) && om2.pool in ps && om2 !in FreeBlocks(ps) && Set([om2]) == {om2}
  {
    hide Linked, Sound, World, FreeBlocks;
    assert ([om2] + d)[0] == om2 && om2 in Set([om2] + d);
  }

  /** The end of os_mbuf_pullup: the filled buffer becomes the head, or is freed when the packet was too short. */
  method Conclude(om2: Mbuf, rest: Mbuf?, ghost d: seq<Mbuf>, len: nat, ghost ps: Pools)
    returns (r: Mbuf?, ghost c': seq<Mbuf>)
    requires Pulling(om2, d, ps) && rest == At(d, 0) && (d != [] ==> d[0].pkthdrLen == 0) && (len > 0 ==> d == [])
    modifies om2`next, om2.pool
    ensures World(ps) && FreeBlocks(ps) + Set(c') == old(FreeBlocks(ps)) + Set([om2] + d)
    ensures len > 0 ==> r == null && c' == []
    ensures len == 0 ==>
        r == om2 && Packet(r, c') && Owned(c', ps) && Bytes(c') == old(Collected(om2, d)) && c' == [om2] + d
  {
    hide Linked, Snaps, Sound, World, FreeBlocks, Set, Bytes;
    CollectedLen(om2, d, ps);
    if len > 0 {
      assert [om2] + d == [om2];
      Free(om2, ps);
      EmptyChain(ps);
      return null, [];
    }
    om2.next := rest;
    ConsPacket(om2, d);
    r, c' := om2, [om2] + d;
  }

  lemma StopsBehind(s: seq<Buf>, n: nat, z: nat)
    requires s != [] && Sound(s) && s[0].len < n && StopsAt(s, n, z)
    ensures FrontEnds(s, n, z)
  {
    hide Content, Sound;
    OneOn(s, 0);
    ContentNone(s);
  }

  /** What the loop does behind the head, seen from the whole packet. */
  lemma StopsInPlace(s: seq<Buf>, n: nat, z: nat)
    requires s != [] && Sound(s) && s[0].len < n && StopsAt(s[1..], n - s[0].len, z)
    ensures FrontEnds(s, n, z + 1)
  {
    hide Content, Sound;
    DataLen(s, 0);
    ContentNone(s);
    BehindFirst(s, z);
    if z > 0 {
      BehindFirst(s, z - 1);
    }
    if z < |s| - 1 {
      BehindFirst(s, z + 1);
    }
  }

  lemma BehindFirst(s: seq<Buf>, j: nat)
    requires s != [] && j < |s|
    ensures |Content(s[..j + 1])| == |s[0].Data()| + |Content(s[1..][..j])|
  {
    hide Buf.Data;
    assert s[..j + 1][1..] == s[1..][..j];
  }

  lemma PullReady(om2: Mbuf, om: Mbuf, c: seq<Mbuf>, ps: Pools)
    requires Packet(om, c) && om2.Snap().Ok() && om2 !in c && Owned([om2] + c, ps) && om2.len == 0
    ensures Pulling(om2, c, ps) && Collected(om2, c) == Bytes(c)
  {
    hide Linked, Snaps, Sound, Bytes, Owned;
    HeadAt(om, c);
    NoData(om2.Snap());
  }

  /** The branch of os_mbuf_pullup that takes a new head from the pool. */
  method PullToNew(om: Mbuf, ghost c: seq<Mbuf>, len: uint16, ghost ps: Pools)
    returns (r: Mbuf?, ghost c': seq<Mbuf>, ghost z: nat)
    requires Packet(om, c) && Owned(c, ps) && om.len < len
    modifies c, ps.Keys, om.pool.free
    ensures World(ps) && FreeBlocks(ps) + Set(c') == old(FreeBlocks(ps)) + Set(c)
    ensures r == null <==>
              len > om.pool.databufLen - old(om.pkthdrLen) || old(om.pool.free) == [] || |old(Bytes(c))| < len
    ensures r == null ==> c' == []
    ensures r != null ==> Packet(r, c') && Owned(c', ps) && Bytes(c') == old(Bytes(c))
    ensures r != null ==> r.len == len && r.pkthdrLen == old(om.pkthdrLen) && r.Header() == old(om.Header())
    ensures r != null && r.IsPkthdr() ==> r.pktLen == old(om.pktLen)
    ensures r != null ==> r == old(om.pool.free)[0] && FrontEnds(old(Snaps(c)), len, z) && c' == [r] + c[z..]
  {
    hide Linked, Snaps, Sound, World, FreeBlocks, Set, Owned, Packet, Bytes, Pulling, Collected, Mbuf.Header, At,
         Content, StopsAt, FrontEnds;
    z := 0;
    HeadReady(om, c, ps);
    ghost var s := Snaps(c);
    FirstSnap(om, c);
    EmptyChain(ps);
    if len > om.pool.databufLen - om.pkthdrLen {
      FreeChain(om, c, ps);
      return null, [], 0;
    }
    var om2 := Get(om.pool, 0, ps);
    if om2 == null {
      OwnedAgain(c, ps);
      FreeChain(om, c, ps);
      return null, [], 0;
    }
    OwnedCons(om2, c, ps, old(FreeBlocks(ps)));
    if om.IsPkthdr() {
      CopyPkthdr(om2, om);
    }
    Headerless(om);
    Headerless(om2);
    PullReady(om2, om, c, ps);
    var need, rest;
    ghost var d;
    need, rest, d, z := PullLoop(om2, om, c, len, ps);
    CollectedLen(om2, d, ps);
    if need == 0 {
      StopsBehind(s, len, z);
    }
    r, c' := Conclude(om2, rest, d, need, ps);
  }

  lemma FirstSnap(om: Mbuf, c: seq<Mbuf>)
    requires Packet(om, c)
    ensures c != [] && Sound(Snaps(c)) && Snaps(c)[0].len == om.len
  {
    hide Snaps, Sound;
    HeadAt(om, c);
    SnapAt(c, 0);
  }

  /** os_mbuf_pullup; the bytes asked for end in the z-th buffer, or together with the one before it, and the buffers
      up to there are free again, but for the head if it could take them all. */
  method Pullup(om: Mbuf, ghost c: seq<Mbuf>, len: uint16, ghost ps: Pools)
    returns (r: Mbuf?, ghost c': seq<Mbuf>, ghost z: nat)
    requires Packet(om, c) && Owned(c, ps)
    modifies c, ps.Keys, om.pool.free
    ensures World(ps) && FreeBlocks(ps) + Set(c') == old(FreeBlocks(ps)) + Set(c)
    ensures r == null <==>
        old(om.len) < len
        && (|old(Bytes(c))| < len
            || (old(om.off) + len > om.pool.databufLen
                && (len > om.pool.databufLen - old(om.pkthdrLen) || old(om.pool.free) == [])))
    ensures r == null ==> c' == []
    ensures r != null ==> Packet(r, c') && Owned(c', ps) && Bytes(c') == old(Bytes(c))
    ensures r != null ==>
        && r.len == Max(len, old(om.len)) && r.pkthdrLen == old(om.pkthdrLen) && r.Header() == old(om.Header())
    ensures r != null && r.IsPkthdr() ==> r.pktLen == old(om.pktLen)
    ensures r != null && old(om.len) >= len ==> r == om && c' == c && Snaps(c) == old(Snaps(c))
    ensures r != null && old(om.len) < len ==>
        && FrontEnds(old(Snaps(c)), len, z) && c' == [r] + c[z..]
        && if old(om.off) + len <= om.pool.databufLen then r == om else r == old(om.pool.free)[0]
  {
    hide Linked, Snaps, Sound, World, FreeBlocks, Set, Owned, Packet, Bytes, Pulling, Collected, Mbuf.Header,
         StopsAt, FrontEnds;
    PullBehindHead(om, c, ps);
    FirstSnap(om, c);
    z := 0;
    if om.len >= len {
      return om, c, 0;
    }
    var need, rest;
    ghost var d, s := c, Snaps(c);
    if om.len + om.TrailingSpace() >= len && om.next != null {
      ghost var z1;
      SnapsSlice(c, 1);
      need, rest, d, z1 := PullLoop(om, om.next, c[1..], len - om.len, ps);
      CollectedLen(om, d, ps);
      r, c' := Conclude(om, rest, d, need, ps);
      if need == 0 {
        StopsInPlace(s, len, z1);
      }
      z := z1 + 1;
    } else {
      r, c', z := PullToNew(om, c, len, ps);
    }
  }

  /** There is one place where the first n bytes of a packet end. */
  lemma FrontEndsOnce(s: seq<Buf>, n: nat, y: nat, z: nat)
    requires FrontEnds(s, n, y) && FrontEnds(s, n, z)
    ensures y == z && n <= |Content(s)|
  {
    hide Content;
    assert s[..|s|] == s;
    Rising(s, z, |s|);
    if z < |s| {
      Rising(s, z + 1, |s|);
    }
    if y < z {
      Rising(s, y, z - 1);
      Rising(s, y + 1, z);
    } else if z < y {
      Rising(s, z, y - 1);
      Rising(s, z + 1, y);
    }
  }

  lemma HeadCapacityAtLeast(n: nat, d: int)
    requires d >= 0
    ensures n > 0 ==> HeadCapacity(n, d) >= d
    ensures n == 0 ==> HeadCapacity(n, d) == 0
  {
  }

  /** os_mbuf_prepend_pullup */
  method PrependPullup(om: Mbuf, ghost c: seq<Mbuf>, len: uint16, ghost ps: Pools)
    returns (r: Mbuf?, ghost c': seq<Mbuf>)
    requires Packet(om, c) && Owned(c, ps)
    modifies c, ps.Keys, FreeBlocks(ps)
    ensures World(ps) && FreeBlocks(ps) + Set(c') == old(FreeBlocks(ps)) + Set(c)
    ensures old(om.LeadingSpace()) >= 0
    ensures r == null <==>
        && len > old(om.LeadingSpace())
        && (len > om.pool.databufLen - old(om.pkthdrLen) || |old(om.pool.free)| == 0
            || (old(om.LeadingSpace()) > 0 && |old(om.pool.free)| == 1))
    ensures r == null ==> c' == []
    ensures r != null ==> Packet(r, c') && Owned(c', ps) && r.len >= len
    ensures r != null ==> |Bytes(c')| == |old(Bytes(c))| + len && Bytes(c')[len..] == old(Bytes(c))
    ensures r != null ==> r.pkthdrLen == old(om.pkthdrLen) && r.Header() == old(om.Header())
    ensures r != null && r.IsPkthdr() ==> r.pktLen == U16(old(om.pktLen) + len)
  {
    hide Packet, Bytes, World, FreeBlocks, Owned, Set, Mbuf.Header, U16, HeadCapacity, Mbuf.LeadingSpace;
    HeadGeometry(om, c);
    ghost var d := om.pool.databufLen - om.pkthdrLen;
    HeadAt(om, c);
    PoolsOk(c, ps, om.pool);
    FreeReach(ps, om.pool);
    HeadCapacityAtLeast(|om.pool.free|, d);
    ghost var k;
    r, c', k := Prepend(om, c, len, ps);
    if r == null {
      return;
    }
    HeadGeometry(r, c');
    if k > 0 {
      HeadCapacityAtLeast(k - 1, d);
    }
    ChainReach(c', c, ps, r.pool, old(FreeBlocks(ps)));
    ghost var z;
    r, c', z := Pullup(r, c', len, ps);
  }

  lemma FrontOf(om: Mbuf, c: seq<Mbuf>, n: nat)
    requires Packet(om, c) && n <= om.len
    ensures n <= |Bytes(c)| && om.off + n <= |om.databuf| && om.databuf[om.off..om.off + n] == Bytes(c)[..n]
  {
    hide Linked, Snaps, Content, Sound;
    HeadAt(om, c);
    SnapAt(c, 0);
    SoundAt(Snaps(c), 0);
    ContentCons(Snaps(c));
    assert om.databuf[om.off..om.off + om.len][..n] == om.databuf[om.off..om.off + n];
  }

  /** mem_pullup_obj: on success the object lies in one piece at the returned offset of the head's data area. */
  method PullupObj(om: Mbuf, ghost c: seq<Mbuf>, len: uint16, ghost ps: Pools)
    returns (om': Mbuf?, data: nat, ghost c': seq<Mbuf>)
    requires Packet(om, c) && Owned(c, ps)
    modifies c, ps.Keys, om.pool.free
    ensures World(ps) && FreeBlocks(ps) + Set(c') == old(FreeBlocks(ps)) + Set(c)
    ensures om' == null <==>
        old(om.len) < len
        && (|old(Bytes(c))| < len
            || (old(om.off) + len > om.pool.databufLen
                && (len > om.pool.databufLen - old(om.pkthdrLen) || old(om.pool.free) == [])))
    ensures om' == null ==> c' == []
    ensures om' != null ==>
        && Packet(om', c') && Owned(c', ps) && Bytes(c') == old(Bytes(c)) && om'.Header() == old(om.Header())
    ensures om' != null ==>
        && data + len <= |om'.databuf| && len <= |old(Bytes(c))|
        && om'.databuf[data..data + len] == old(Bytes(c))[..len]
  {
    hide Packet, Owned, World, FreeBlocks, Set, Bytes, Mbuf.Header, FrontEnds;
    ghost var z;
    om', c', z := Pullup(om, c, len, ps);
    data := 0;
    if om' != null {
      FrontOf(om', c', len);
      data := om'.off;
    }
  }
}
