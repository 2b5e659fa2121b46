// os_mbuf_pack_chains: joining two packets into buffers without unused space.
module Packing {
  import opened ByteSeqs
  import opened Bufs
  import opened Mbufs
  import opened Joining
  import opened Spans

  /** The first k buffers have neither leading nor trailing space. */
  ghost predicate PackedUpTo(d: seq<Mbuf>, k: nat)
    requires k <= |d|
    reads d`off, d`len, d`pkthdrLen
  {
    forall j | 0 <= j < k :: d[j].LeadingSpace() == 0 && d[j].TrailingSpace() == 0
  }

  ghost function SpanOf(m: Mbuf): Span
    reads m`len, m`pkthdrLen
  {
    Span(m.pool.databufLen - m.pkthdrLen, m.len)
  }

  ghost function SpansOf(c: seq<Mbuf>): (s: seq<Span>)
    reads c`len, c`pkthdrLen
    ensures |s| == |c|
  {
    if c == [] then [] else [SpanOf(c[0])] + SpansOf(c[1..])
  }

  /** Packing the buffers from the k-th on leaves an empty one at the end. */
  ghost predicate EndsEmpty(c: seq<Mbuf>, k: nat)
    reads c`len, c`pkthdrLen
  {
    k < |c| && EmptyLast(SpansOf(c)[k..])
  }

  lemma {:induction false} SpanAt(c: seq<Mbuf>, i: nat)
    requires i < |c|
    ensures SpansOf(c)[i] == SpanOf(c[i])
  {
    if i > 0 {
      SpanAt(c[1..], i - 1);
    }
  }

  lemma SpansAt(c: seq<Mbuf>)
    ensures forall i | 0 <= i < |c| :: SpansOf(c)[i] == SpanOf(c[i])
  {
    forall i | 0 <= i < |c| ensures SpansOf(c)[i] == SpanOf(c[i]) {
      SpanAt(c, i);
    }
  }

  lemma SpansWithout(c: seq<Mbuf>, i: nat)
    requires i < |c|
    ensures SpansOf(Without(c, i)) == Without(SpansOf(c), i)
  {
    hide SpansOf, SpanOf;
    SpansAt(c);
    SpansAt(Without(c, i));
  }

  lemma SpansConcat(a: seq<Mbuf>, b: seq<Mbuf>)
    ensures SpansOf(a + b) == SpansOf(a) + SpansOf(b)
  {
    hide SpansOf, SpanOf;
    SpansAt(a);
    SpansAt(b);
    SpansAt(a + b);
  }

  lemma MoveDown(b: Buf)
    requires b.Ok()
    ensures var t := b.(databuf := Splice(b.databuf, b.pkthdrLen, b.databuf[b.off..b.off + b.len]), off := b.pkthdrLen);
            t.Ok() && t.Data() == b.Data() && t.databuf[..b.pkthdrLen] == b.databuf[..b.pkthdrLen]
  {
  }

  /** Moves the data of one buffer to the start of its data area, behind the header if there is one. */
  method ShiftDown(ghost om: Mbuf, ghost d: seq<Mbuf>, ghost k: nat, cur: Mbuf)
    requires Packet(om, d) && k < |d| && cur == d[k] && PackedUpTo(d, k)
    modifies cur`databuf, cur`off
    ensures Packet(om, d) && Bytes(d) == old(Bytes(d)) && PackedUpTo(d, k)
    ensures cur.LeadingSpace() == 0 && cur.Header() == old(cur.Header()) && cur.TrailingSpace() >= 0
  {
    hide Linked, Snaps, Content, Sound, Buf.Data, Splice;
    ghost var s := Snaps(d);
    SnapsAt(d);
    SoundAt(s, k);
    if cur.LeadingSpace() != 0 {
      MoveDown(cur.Snap());
      var dptr := if cur.IsPkthdr() then cur.pkthdrLen else 0;
      cur.databuf := Splice(cur.databuf, dptr, cur.databuf[cur.off..cur.off + cur.len]);
      cur.off := dptr;
      Others(om, d, k);
      SnapsUpdate(d, s, k);
      SoundUpdate(s, k, cur.Snap());
      ContentSame(s, k, cur.Snap());
    }
  }

  lemma ContentPass(s: seq<Buf>, k: nat, a: Buf, b: Buf, n: nat)
    requires k + 1 < |s| && n <= |s[k + 1].Data()|
    requires a.Data() == s[k].Data() + s[k + 1].Data()[..n] && b.Data() == s[k + 1].Data()[n..]
    ensures Content(s[k := a][k + 1 := b]) == Content(s)
  {
    hide Content, Buf.Data;
    var t := s[k := a][k + 1 := b];
    ContentSplit(s, k);
    ContentSplit(t, k);
    ContentFrom(s, k);
    ContentFrom(t, k);
    ContentFrom(s, k + 1);
    ContentFrom(t, k + 1);
    assert t[..k] == s[..k] && t[k + 2..] == s[k + 2..];
    assert s[k + 1].Data() == s[k + 1].Data()[..n] + s[k + 1].Data()[n..];
  }

  /** memcpy of n bytes from the front of one buffer to the end of the buffer before it. */
  method Pass(ghost om: Mbuf, ghost d: seq<Mbuf>, ghost k: nat, cur: Mbuf, next: Mbuf, n: nat)
    requires Packet(om, d) && k + 1 < |d| && cur == d[k] && next == d[k + 1] && PackedUpTo(d, k)
    requires n <= next.len && n <= cur.TrailingSpace()
    modifies cur`databuf, cur`len, next`off, next`len
    ensures Packet(om, d) && Bytes(d) == old(Bytes(d)) && PackedUpTo(d, k)
    ensures cur.LeadingSpace() == old(cur.LeadingSpace()) && cur.TrailingSpace() == old(cur.TrailingSpace()) - n
    ensures next.len == old(next.len) - n && cur.len == old(cur.len) + n && cur.Header() == old(cur.Header())
  {
    hide Linked, Snaps, Content, Sound, Buf.Data;
    ghost var s := Snaps(d);
    SnapsAt(d);
    SoundAt(s, k);
    SoundAt(s, k + 1);
    Others(om, d, k);
    Others(om, d, k + 1);
    DataCut(next.Snap(), n);
    var x := next.Snap().Data()[..n];
    cur.Fill(x);
    next.off := next.off + n;
    next.len := next.len - n;
    SnapsUpdateTwo(om, d, s, k);
    SoundUpdate(s, k, cur.Snap());
    SoundUpdate(s[k := cur.Snap()], k + 1, next.Snap());
    ContentPass(s, k, cur.Snap(), next.Snap(), n);
  }

  lemma SpansMoved(om: Mbuf, d: seq<Mbuf>, s: seq<Span>, k: nat, n: nat)
    requires Packet(om, d) && k + 1 < |d| == |s| && n <= s[k + 1].len
    requires SpanOf(d[k]) == s[k].(len := s[k].len + n) && SpanOf(d[k + 1]) == s[k + 1].(len := s[k + 1].len - n)
    requires forall j | 0 <= j < |d| :: d[j] == d[k] || d[j] == d[k + 1] || SpanOf(d[j]) == s[j]
    ensures SpansOf(d) == Moved(s, k, n)
  {
    hide SpansOf, SpanOf, Snaps, Content, Sound;
    SpansAt(d);
  }

  /** One turn of the middle loop: data moves up, and the empty buffers behind it are freed. */
  method Turn(om: Mbuf, ghost d: seq<Mbuf>, ghost k: nat, cur: Mbuf, first: Mbuf, n: nat, ghost ps: Pools)
    returns (next: Mbuf?, ghost e: seq<Mbuf>)
    requires Packet(om, d) && Owned(d, ps) && k + 1 < |d| && cur == d[k] && first == d[k + 1] && PackedUpTo(d, k)
    requires n == Min(cur.TrailingSpace(), first.len) && cur.TrailingSpace() > 0 && cur.LeadingSpace() == 0
    modifies cur`databuf, cur`len, cur`next, first`off, first`len, ps.Keys
    ensures Packet(om, e) && Owned(e, ps) && Within(e, d, k) && PackedUpTo(e, k) && cur == e[k]
    ensures FreeBlocks(ps) + Set(e) == old(FreeBlocks(ps)) + Set(d) && Bytes(e) == old(Bytes(d))
    ensures next == At(e, k + 1) && cur.LeadingSpace() == 0 && cur.TrailingSpace() == old(cur.TrailingSpace()) - n
    ensures |e| <= |d| && (|e| < |d| || n > 0)
    ensures cur.Header() == old(cur.Header())
    ensures EndsEmpty(e, k) == old(EndsEmpty(d, k))
  {
    hide Packet, Owned, Set, FreeBlocks, World, Bytes, PackedUpTo, Within, Mbuf.Header, Mbuf.LeadingSpace,
         Mbuf.TrailingSpace, SpansOf, EmptyLast, Dropped, Moved;
    ghost var s := SpansOf(d);
    SpansAt(d);
    TrueRoom(om, d, k);
    Pass(om, d, k, cur, first, n);
    SpansMoved(om, d, s, k, n);
    TurnKeeps(s, k, n);
    next, e := DropEmpties(om, d, k, cur, first, ps);
    WithinElements(e, d, k);
  }

  lemma TrueRoom(om: Mbuf, d: seq<Mbuf>, k: nat)
    requires Packet(om, d) && k < |d| && d[k].LeadingSpace() == 0
    ensures SpanOf(d[k]).Free() == d[k].TrailingSpace()
  {
    hide Linked, Snaps;
    SnapAt(d, k);
    SoundAt(Snaps(d), k);
  }

  lemma SnapsUpdateTwo(om: Mbuf?, d: seq<Mbuf>, s: seq<Buf>, k: nat)
    requires Linked(om, d) && k + 1 < |d| == |s|
    requires forall j | 0 <= j < |d| :: d[j] == d[k] || d[j] == d[k + 1] || d[j].Snap() == s[j]
    ensures Snaps(d) == s[k := d[k].Snap()][k + 1 := d[k + 1].Snap()]
  {
    hide Snaps, Mbuf.Snap;
    SnapsAt(d);
  }

  /** Everything in e is in d, and the first k + 1 buffers are the same. */
  ghost predicate Within(e: seq<Mbuf>, d: seq<Mbuf>, k: nat) {
    k < |e| <= |d| && e[..k + 1] == d[..k + 1] && forall j | 0 <= j < |e| :: e[j] in d
  }

  lemma WithinWithout(e: seq<Mbuf>, d: seq<Mbuf>, k: nat)
    requires Within(e, d, k) && k + 1 < |e|
    ensures Within(Without(e, k + 1), d, k)
  {
    var f := Without(e, k + 1);
    assert f[..k + 1] == e[..k + 1];
    assert forall j | 0 <= j < |f| :: f[j] == if j <= k then e[j] else e[j + 1];
  }

  /** The innermost loop: empty buffers behind the current one are freed. */
  method DropEmpties(om: Mbuf, ghost d: seq<Mbuf>, ghost k: nat, cur: Mbuf, first: Mbuf, ghost ps: Pools)
    returns (next: Mbuf?, ghost e: seq<Mbuf>)
    requires Packet(om, d) && Owned(d, ps) && k + 1 < |d| && cur == d[k] && first == d[k + 1] && PackedUpTo(d, k)
    modifies cur`next, ps.Keys
    ensures Packet(om, e) && Owned(e, ps) && Within(e, d, k) && PackedUpTo(e, k) && cur == e[k]
    ensures FreeBlocks(ps) + Set(e) == old(FreeBlocks(ps)) + Set(d) && Bytes(e) == old(Bytes(d))
    ensures next == At(e, k + 1) && (next != null ==> next.len > 0)
    ensures first.len == 0 ==> |e| < |d|
    ensures first.len != 0 ==> next == first && e == d
    ensures SpansOf(e) == old(Dropped(SpansOf(d), k))
  {
    hide Packet, Owned, Set, FreeBlocks, World, Bytes, PackedUpTo, SpansOf, Dropped;
    next := first;
    e := d;
    ghost var spans := SpansOf(d);
    while next != null && next.len == 0
      invariant Packet(om, e) && Owned(e, ps) && Within(e, d, k) && PackedUpTo(e, k) && cur == e[k]
      invariant FreeBlocks(ps) + Set(e) == old(FreeBlocks(ps)) + Set(d) && Bytes(e) == old(Bytes(d))
      invariant next == At(e, k + 1)
      invariant if first.len == 0 then next == first || |e| < |d| else next == first && e == d
      invariant Dropped(SpansOf(e), k) == Dropped(spans, k)
      decreases |e|
    {
      PoolsOk(e, ps, next.pool);
      assert e[k + 1] == next;
      WithinWithout(e, d, k);
      DropOne(e, k);
      SpanAt(e, k + 1);
      SpansWithout(e, k + 1);
      DroppedOne(SpansOf(e), k);
      next := RemoveNext(om, e, k, cur, next, ps);
      e := Without(e, k + 1);
    }
    SpansAt(e);
    DroppedNone(SpansOf(e), k);
  }

  lemma DropOne(e: seq<Mbuf>, k: nat)
    requires k + 1 < |e| && PackedUpTo(e, k)
    ensures var f := Without(e, k + 1);
            |f| == |e| - 1 && f[k] == e[k] && PackedUpTo(f, k) && At(f, k + 1) == At(e, k + 2)
  {
  }

  /** The middle loop: the current buffer absorbs the ones behind it until it is full or none are left. */
  method FillUp(om: Mbuf, ghost d: seq<Mbuf>, ghost k: nat, cur: Mbuf, ghost ps: Pools)
    returns (next: Mbuf?, ghost e: seq<Mbuf>)
    requires Packet(om, d) && Owned(d, ps) && k < |d| && cur == d[k] && PackedUpTo(d, k)
    requires cur.LeadingSpace() == 0 && cur.TrailingSpace() >= 0
    modifies d, ps.Keys
    ensures Packet(om, e) && Owned(e, ps) && Within(e, d, k) && PackedUpTo(e, k) && cur == e[k]
    ensures FreeBlocks(ps) + Set(e) == old(FreeBlocks(ps)) + Set(d) && Bytes(e) == old(Bytes(d))
    ensures next == At(e, k + 1) && cur.LeadingSpace() == 0 && (next != null ==> cur.TrailingSpace() == 0)
    ensures EndsEmpty(e, k) == old(EndsEmpty(d, k))
    ensures om.Header() == old(om.Header()) && om.pktLen == old(om.pktLen) && om.pkthdrLen == old(om.pkthdrLen)
  {
    hide Packet, Owned, Set, FreeBlocks, World, Bytes, PackedUpTo, Within, Mbuf.Header, Mbuf.LeadingSpace,
         Mbuf.TrailingSpace, EndsEmpty;
    e := d;
    WithinSelf(d, k);
    FollowAt(om, d, k);
    next := cur.next;
    var rem: int := cur.TrailingSpace();
    while rem > 0 && next != null
      invariant Packet(om, e) && Owned(e, ps) && Within(e, d, k) && k < |e| && PackedUpTo(e, k) && cur == e[k]
      invariant FreeBlocks(ps) + Set(e) == old(FreeBlocks(ps)) + Set(d) && Bytes(e) == old(Bytes(d))
      invariant next == At(e, k + 1) && rem == cur.TrailingSpace() >= 0 && cur.LeadingSpace() == 0
      invariant EndsEmpty(e, k) == old(EndsEmpty(d, k))
      invariant om.Header() == old(om.Header()) && om.pktLen == old(om.pktLen) && om.pkthdrLen == old(om.pkthdrLen)
      decreases |e|, rem
    {
      WithinElements(e, d, k);
      var copylen: nat := Min(rem, next.len);
      rem := rem - copylen;
      ghost var f := e;
      next, e := Turn(om, f, k, cur, next, copylen, ps);
      WithinTrans(e, f, d, k);
    }
  }

  lemma WithinSelf(d: seq<Mbuf>, k: nat)
    requires k < |d|
    ensures Within(d, d, k)
  {
  }

  lemma WithinElements(e: seq<Mbuf>, d: seq<Mbuf>, k: nat)
    requires Within(e, d, k)
    ensures k < |e| <= |d| && forall j | 0 <= j < |e| :: e[j] in d
  {
  }

  lemma WithinTrans(e: seq<Mbuf>, f: seq<Mbuf>, d: seq<Mbuf>, k: nat)
    requires Within(e, f, k) && Within(f, d, k)
    ensures Within(e, d, k)
  {
  }

  /** The outer loop of os_mbuf_pack_chains on one chain. */
  method Compact(om: Mbuf, ghost c: seq<Mbuf>, ghost ps: Pools) returns (ghost e: seq<Mbuf>)
    requires Packet(om, c) && Owned(c, ps)
    modifies c, ps.Keys
    ensures Packet(om, e) && Owned(e, ps) && e != [] && |e| <= |c|
    ensures FreeBlocks(ps) + Set(e) == old(FreeBlocks(ps)) + Set(c) && Bytes(e) == old(Bytes(c))
    ensures PackedUpTo(e, |e| - 1) && e[|e| - 1].LeadingSpace() == 0
    ensures e[|e| - 1].len == 0 <==> old(EndsEmpty(c, 0))
    ensures om.Header() == old(om.Header()) && om.pktLen == old(om.pktLen) && om.pkthdrLen == old(om.pkthdrLen)
  {
    hide Packet, Owned, Set, FreeBlocks, World, Bytes, PackedUpTo, Within, Mbuf.Header, Mbuf.LeadingSpace,
         Mbuf.TrailingSpace, EndsEmpty;
    HeadAt(om, c);
    e := c;
    ghost var k := 0;
    NonePacked(c);
    WithinSelf(c, 0);
    var cur := om;
    while true
      invariant k < |e| && cur == e[k] && Packet(om, e) && Owned(e, ps) && Within(e, c, 0) && PackedUpTo(e, k)
      invariant FreeBlocks(ps) + Set(e) == old(FreeBlocks(ps)) + Set(c) && Bytes(e) == old(Bytes(c))
      invariant om.Header() == old(om.Header()) && om.pktLen == old(om.pktLen) && om.pkthdrLen == old(om.pkthdrLen)
      invariant EndsEmpty(e, k) == old(EndsEmpty(c, 0))
      decreases |c| - k
    {
      WithinElements(e, c, 0);
      ghost var d := e;
      ShiftDown(om, d, k, cur);
      var next;
      next, e := FillUp(om, d, k, cur, ps);
      WithinLess(e, d, c, k);
      StepOn(om, e, k);
      if next == null {
        LastOne(e, k);
        break;
      }
      OneMorePacked(e, k);
      cur := next;
      k := k + 1;
    }
  }

  lemma StepOn(om: Mbuf, e: seq<Mbuf>, k: nat)
    requires Packet(om, e) && k < |e| && e[k].LeadingSpace() == 0
    ensures if k + 1 == |e| then EndsEmpty(e, k) <==> e[k].len == 0
            else e[k].TrailingSpace() == 0 ==> EndsEmpty(e, k) == EndsEmpty(e, k + 1)
  {
    hide Packet, SpansOf, EmptyLast;
    SpansAt(e);
    TrueRoom(om, e, k);
    Passed(SpansOf(e), k);
  }

  lemma NonePacked(c: seq<Mbuf>)
    ensures PackedUpTo(c, 0)
  {
  }

  lemma OneMorePacked(e: seq<Mbuf>, k: nat)
    requires k + 1 < |e| && PackedUpTo(e, k) && e[k].LeadingSpace() == 0 && e[k].TrailingSpace() == 0
    ensures PackedUpTo(e, k + 1)
  {
  }

  lemma LastOne(e: seq<Mbuf>, k: nat)
    requires k < |e| && At(e, k + 1) == null
    ensures k == |e| - 1
  {
  }

  lemma WithinLess(e: seq<Mbuf>, d: seq<Mbuf>, c: seq<Mbuf>, k: nat)
    requires Within(e, d, k) && Within(d, c, 0)
    ensures Within(e, c, 0) && k < |e| <= |c|
  {
    assert e[..1] == e[..k + 1][..1] && d[..1] == d[..k + 1][..1];
  }

  lemma OwnedConcat(a: seq<Mbuf>, b: seq<Mbuf>, ps: Pools)
    requires Owned(a, ps) && Owned(b, ps)
    ensures Owned(a + b, ps) && Set(a + b) == Set(a) + Set(b)
  {
    hide World, FreeBlocks;
  }

  ghost function Rest(c: seq<Mbuf>): seq<Mbuf> {
    if c == [] then [] else c[1..]
  }

  /** The buffers of two chains as they are once the second one has lost its header. */
  ghost function Joined(c1: seq<Mbuf>, c2: seq<Mbuf>): seq<Span>
    reads c1`len, c1`pkthdrLen, c2`len, Rest(c2)`pkthdrLen
  {
    SpansOf(c1) + if c2 == [] then [] else [Span(c2[0].pool.databufLen, c2[0].len)] + SpansOf(Rest(c2))
  }

  lemma SpansJoined(c1: seq<Mbuf>, c2: seq<Mbuf>)
    requires c2 != [] ==> c2[0].pkthdrLen == 0
    ensures EndsEmpty(c1 + c2, 0) <==> EmptyLast(Joined(c1, c2))
  {
    SpansConcat(c1, c2);
    assert SpansOf(c1 + c2)[0..] == SpansOf(c1 + c2) == Joined(c1, c2);
  }

  lemma SecondHead(m2: Mbuf?, c1: seq<Mbuf>, c2: seq<Mbuf>)
    requires Packet(m2, c2) && Set(c1) !! Set(c2)
    ensures m2 != null ==> c2 != [] && m2 == c2[0]
    ensures m2 == null ==> c2 == []
    ensures m2 != null ==>
        && (forall j | 0 <= j < |c1| :: c1[j] != m2) && (forall j | 0 <= j < |Rest(c2)| :: Rest(c2)[j] != m2)
  {
    hide Snaps, Sound;
    if m2 != null {
      forall j | 0 <= j < |c1| ensures c1[j] != m2 {
        assert c1[j] in Set(c1) && m2 == c2[0] && c2[0] in Set(c2);
      }
    }
  }

  /** os_mbuf_pack_chains for a first chain that is not NULL; the second may be. */
  method PackChains(m1: Mbuf, ghost c1: seq<Mbuf>, m2: Mbuf?, ghost c2: seq<Mbuf>, ghost ps: Pools)
    returns (r: Mbuf, ghost e: seq<Mbuf>)
    requires Packet(m1, c1) && Owned(c1, ps) && Packet(m2, c2) && Owned(c2, ps) && Set(c1) !! Set(c2)
    modifies c1, c2, ps.Keys
    ensures r == m1 && Packet(r, e) && Owned(e, ps) && Bytes(e) == old(Bytes(c1)) + old(Bytes(c2))
    ensures FreeBlocks(ps) + Set(e) == old(FreeBlocks(ps)) + Set(c1) + Set(c2)
    ensures e != [] && PackedUpTo(e, |e| - 1) && e[|e| - 1].LeadingSpace() == 0
    ensures r.pkthdrLen == old(m1.pkthdrLen) && r.Header() == old(m1.Header())
    ensures e[|e| - 1].len == 0 <==> old(EmptyLast(Joined(c1, c2)))
    ensures r.IsPkthdr() && old(Counted(c1)) && old(Counted(c2)) ==> r.pktLen == U16(|Bytes(e)|)
    ensures r.pktLen == if !r.IsPkthdr() || m2 == null then old(m1.pktLen)
                        else if old(m2.IsPkthdr()) then U16(old(m1.pktLen) + old(m2.pktLen))
                        else U16(old(m1.pktLen) + |old(Bytes(c2))|)
  {
    hide Packet, Owned, Set, FreeBlocks, World, Bytes, PackedUpTo, Mbuf.Header, U16, SpansOf, EmptyLast, EndsEmpty,
         Joined;
    SecondHead(m2, c1, c2);
    HeadAt(m1, c1);
    Chains(m2, c2);
    OwnedConcat(c1, c2, ps);
    ghost var c := c1 + c2;
    if m2 != null {
      U16Sum(|Bytes(c1)|, |Bytes(c2)|);
      Concat(m1, c1, m2, c2);
    } else {
      assert c == c1;
    }
    SpansJoined(c1, c2);
    e := Compact(m1, c, ps);
    r := m1;
  }

  lemma Chains(om: Mbuf?, c: seq<Mbuf>)
    requires Packet(om, c)
    ensures om == At(c, 0) && (om == null ==> c == [] && Bytes(c) == [] && Set(c) == {})
    ensures om != null ==> om in c
  {
    if om != null {
      assert c[0] in c;
    }
  }
}
