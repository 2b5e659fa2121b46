// os_mbuf_widen: opening a gap inside a packet.
module Widening {
  import opened ByteSeqs
  import opened Bufs
  import opened Mbufs
  import opened Appending
  import opened Cursors
  import opened ChainCopy
  import Pieces

  /** A fresh buffer with n bytes of indeterminate data. */
  method GapBuffer(omp: Pool, n: nat, ghost ps: Pools) returns (cur: Mbuf?)
    requires World(ps) && omp in ps && n <= omp.databufLen
    modifies omp, omp.free
    ensures World(ps) && (cur == null <==> old(omp.free) == [])
    ensures cur == null ==> omp.free == old(omp.free) && FreeBlocks(ps) == old(FreeBlocks(ps))
    ensures cur != null ==> cur == old(omp.free)[0] && omp.free == old(omp.free)[1..] && cur.pool == omp
    ensures cur != null ==> cur in old(FreeBlocks(ps)) && FreeBlocks(ps) == old(FreeBlocks(ps)) - {cur}
    ensures cur != null ==>
        && cur.Snap().Ok() && cur.next == null && cur.pkthdrLen == 0 && cur.len == n && |cur.Snap().Data()| == n
    ensures cur != null ==> cur.TrailingSpace() == omp.databufLen - n
  {
    hide World, FreeBlocks;
    cur := Get(omp, 0, ps);
    if cur != null {
      cur.len := n;
    }
  }

  lemma GapNext(first: Mbuf?, g: seq<Mbuf>, cur: Mbuf, ps: Pools, before: set<Mbuf>)
    requires Sound(Snaps(g)) && World(ps) && cur.pool in ps && cur.Snap().Ok() && cur.pkthdrLen == 0
        && |cur.Snap().Data()| == cur.len
    requires Set(g) !! before && cur in before && FreeBlocks(ps) == before - {cur}
        && (forall i | 0 <= i < |g| :: g[i].pool in ps)
    ensures Sound(Snaps(g + [cur])) && |Bytes(g + [cur])| == |Bytes(g)| + cur.len
    ensures Owned(g + [cur], ps) && cur !in g && FreeBlocks(ps) + Set(g + [cur]) == before + Set(g)
  {
    hide Sound, Snaps, World, FreeBlocks, Owned, Set, Buf.Ok, Buf.Data, Content;
    OwnedSnoc(g, cur, ps, before);
    SnapsSnoc(g, cur);
    if g == [] {
      NoBuffers();
      SoundCons(cur.Snap(), Snaps(g));
      assert [cur.Snap()] + Snaps(g) == Snaps(g) + [cur.Snap()];
    } else {
      SoundSnoc(Snaps(g), cur.Snap());
    }
    ContentOne(cur.Snap());
    ContentConcat(Snaps(g), [cur.Snap()]);
  }

  lemma InFree(f: seq<Mbuf>, k: nat)
    requires k <= |f|
    ensures k > 0 ==> f[k - 1] in f && f[..k][k - 1] == f[k - 1]
    ensures k < |f| ==> f[..k] + [f[k]] == f[..k + 1] && f[k..][0] == f[k] && f[k..][1..] == f[k + 1..]
  {
  }

  lemma LinkedSnoc(first: Mbuf?, g: seq<Mbuf>, cur: Mbuf)
    requires cur !in g && cur.next == null
    requires g == [] || (first == g[0] && g[|g| - 1].next == cur)
    requires forall i {:trigger g[i].next} | 0 <= i < |g| - 1 :: g[i].next == At(g, i + 1)
    requires forall i, j | 0 <= i < j < |g| :: g[i] != g[j]
    ensures Linked(if g == [] then cur else first, g + [cur])
  {
    var h := g + [cur];
    forall i | 0 <= i < |h| ensures h[i].next == At(h, i + 1) {
      if i < |g| {
        assert h[i] == g[i];
      }
    }
  }

  /** One turn of the allocation loop: a buffer with n bytes behind the gap so far. */
  method GapStep(first: Mbuf?, last: Mbuf?, ghost g: seq<Mbuf>, omp: Pool, n: nat, ghost ps: Pools)
    returns (cur: Mbuf?)
    requires Packet(first, g) && Owned(g, ps) && omp in ps && n <= omp.databufLen
    requires last == (if g == [] then null else g[|g| - 1]) && (first != null ==> first.pkthdrLen == 0)
    modifies omp, omp.free, g`next
    ensures World(ps) && (cur == null <==> old(omp.free) == [])
    ensures cur == null ==>
        && omp.free == old(omp.free) && FreeBlocks(ps) == old(FreeBlocks(ps)) && Packet(first, g) && Owned(g, ps)
    ensures cur != null ==> cur == old(omp.free)[0] && omp.free == old(omp.free)[1..] && cur.pool == omp
    ensures first != null ==> first.pkthdrLen == 0
    ensures cur != null ==>
        && cur.pkthdrLen == 0 && Packet(if first == null then cur else first, g + [cur]) && Owned(g + [cur], ps)
    ensures cur != null ==> FreeBlocks(ps) + Set(g + [cur]) == old(FreeBlocks(ps)) + Set(g)
    ensures cur != null ==> |Bytes(g + [cur])| == old(|Bytes(g)|) + n && cur.TrailingSpace() == omp.databufLen - n
  {
    hide World, FreeBlocks, Owned, Set, Snaps, Sound, Buf.Ok, Buf.Data;
    OwnedApart(g, ps);
    PoolsOk(g, ps, omp);
    ghost var s := Snaps(g);
    cur := GapBuffer(omp, n, ps);
    if cur == null {
      OwnedAgain(g, ps);
      return;
    }
    assert Snaps(g) == s;
    GapNext(first, g, cur, ps, old(FreeBlocks(ps)));
    if last != null {
      last.next := cur;
    }
    LinkedSnoc(first, g, cur);
  }

  /** The allocation loop of os_mbuf_widen: buffers for a gap of len bytes, all but the last one full. */
  method MakeGap(omp: Pool, len: nat, ghost ps: Pools) returns (first: Mbuf?, last: Mbuf?, ghost g: seq<Mbuf>)
    requires World(ps) && omp in ps && len > 0
    modifies ps.Keys, omp.free
    ensures World(ps) && (first == null <==> len > Capacity(|old(omp.free)|, omp.databufLen))
    ensures first == null ==> FreeBlocks(ps) == old(FreeBlocks(ps)) && g == []
    ensures first != null ==> |g| <= |old(omp.free)| && g == old(omp.free)[..|g|] && omp.free == old(omp.free)[|g|..]
    ensures first != null ==>
        && g != [] && last == g[|g| - 1] && last.pool == omp && Packet(first, g) && Owned(g, ps)
        && first.pkthdrLen == 0
    ensures first != null ==> FreeBlocks(ps) + Set(g) == old(FreeBlocks(ps)) && |Bytes(g)| == len
    ensures first != null ==>
        && 0 <= last.TrailingSpace() < omp.databufLen && Capacity(|g|, omp.databufLen) == len + last.TrailingSpace()
        && Needed(|g|, len, omp.databufLen)
  {
    hide World, FreeBlocks, Owned, Set, Packet, Bytes, Capacity, Linked, Snaps, Sound;
    ghost var F := omp.free;
    var rem: nat := len;
    first, last, g := null, null, F[..0];
    EmptyChain(ps);
    CapacityStep(0, omp.databufLen);
    while rem > 0
      invariant |g| <= |F| && g == F[..|g|] && omp.free == F[|g|..]
      invariant Packet(first, g) && Owned(g, ps) && World(ps) && FreeBlocks(ps) + Set(g) == old(FreeBlocks(ps))
      invariant last == (if g == [] then null else g[|g| - 1]) && (first == null <==> g == []) && (first != null
          ==> first.pkthdrLen == 0)
      invariant rem <= len && |Bytes(g)| == len - rem
      invariant g == [] ==> rem == len
      invariant g != [] ==> last.pool == omp && 0 <= last.TrailingSpace() < omp.databufLen
      invariant g != [] ==>
          && Capacity(|g|, omp.databufLen) == len - rem + last.TrailingSpace()
          && (rem > 0 ==> last.TrailingSpace() == 0)
      decreases rem
    {
      PoolsOk(g, ps, omp);
      InFree(F, |g|);
      var n := Min(rem, omp.databufLen);
      var cur := GapStep(first, last, g, omp, n, ps);
      if cur == null {
        FollowAt(first, g, 0);
        FreeChain(first, g, ps);
        return null, null, [];
      }
      CapacityStep(|g|, omp.databufLen);
      if first == null {
        first := cur;
      }
      g := g + [cur];
      last := cur;
      rem := rem - n;
    }
    CapacityGrows(|g|, |F|, omp.databufLen);
    CapacityStep(|g| - 1, omp.databufLen);
  }

  /** The end of d[i..i + len], from `sub` on, moves up by n: what lies in front of it stays. */
  lemma MoveUp(d: seq<byte>, i: nat, sub: nat, len: nat, n: nat)
    requires sub <= len && i + len + n <= |d|
    ensures var r := Splice(d, i + sub + n, d[i + sub..i + len]);
            && |r[i..i + (len + n)]| == len + n
            && r[i..i + (len + n)][..sub] == d[i..i + len][..sub]
                && r[i..i + (len + n)][sub + n..] == d[i..i + len][sub..]
  {
    var r := Splice(d, i + sub + n, d[i + sub..i + len]);
    SpliceLow(d, i + sub + n, d[i + sub..i + len], i, i + sub);
    assert r[i + sub + n..i + (len + n)] == d[i + sub..i + len];
    hide Splice;
    SliceOfSlice(r, i, i + (len + n), 0, sub);
    SliceOfSlice(r, i, i + (len + n), sub + n, len + n);
    SliceOfSlice(d, i, i + len, 0, sub);
    SliceOfSlice(d, i, i + len, sub, len);
  }

  /** memmove inside one buffer: its data from `sub` on moves up by n bytes. */
  lemma WidenData(b: Buf, sub: nat, n: nat)
    requires b.Ok() && sub <= b.len && b.off + b.len + n <= b.cap
    ensures var moved := Splice(b.databuf, b.off + sub + n, b.databuf[b.off + sub..b.off + b.len]);
            var t := b.(databuf := moved, len := b.len + n);
            && t.Ok() && |t.Data()| == b.len + n && |b.Data()| == b.len
            && t.Data()[..sub] == b.Data()[..sub] && t.Data()[sub + n..] == b.Data()[sub..]
  {
    MoveUp(b.databuf, b.off, sub, b.len, n);
    hide Splice;
  }

  /** Bytes put into the i-th buffer are put into the packet. */
  lemma ContentInsert(s: seq<Buf>, i: nat, b: Buf, sub: nat, n: nat)
    requires i < |s| && sub <= |s[i].Data()| && |b.Data()| == |s[i].Data()| + n
    requires b.Data()[..sub] == s[i].Data()[..sub] && b.Data()[sub + n..] == s[i].Data()[sub..]
    ensures var p := |Content(s[..i])| + sub;
            p <= |Content(s)| && Content(s[i := b]) == Content(s)[..p] + b.Data()[sub..sub + n] + Content(s)[p..]
  {
    hide Content, Buf.Data;
    var t := s[i := b];
    ContentSplit(s, i);
    ContentSplit(t, i);
    ContentFrom(s, i);
    ContentFrom(t, i);
    assert t[..i] == s[..i] && t[i + 1..] == s[i + 1..];
    var x, y := s[i].Data(), b.Data();
    assert y == x[..sub] + y[sub..sub + n] + x[sub..];
  }

  /** The fast path of os_mbuf_widen: the gap fits the edge buffer. */
  method WidenInPlace(ghost om: Mbuf, ghost c: seq<Mbuf>, ghost i: nat, edge: Mbuf, sub: nat, len: nat)
    returns (ghost gap: seq<byte>)
    requires Packet(om, c) && i < |c| && edge == c[i] && sub <= edge.len && len <= edge.TrailingSpace()
    modifies edge`databuf, edge`len
    ensures Packet(om, c) && |gap| == len && edge.Header() == old(edge.Header())
    ensures var p := |Content(old(Snaps(c))[..i])| + sub;
            p <= |old(Bytes(c))| && Bytes(c) == old(Bytes(c))[..p] + gap + old(Bytes(c))[p..]
  {
    hide Linked, Snaps, Content, Sound, Buf.Data, Splice;
    ghost var s := Snaps(c);
    SnapsAt(c);
    SoundAt(s, i);
    WidenData(edge.Snap(), sub, len);
    edge.databuf := Splice(edge.databuf, edge.off + sub + len, edge.databuf[edge.off + sub..edge.off + edge.len]);
    edge.len := edge.len + len;
    Others(om, c, i);
    SnapsUpdate(c, s, i);
    SoundUpdate(s, i, edge.Snap());
    ContentInsert(s, i, edge.Snap(), sub, len);
    gap := edge.Snap().Data()[sub..sub + len];
  }

  /** The links once g hangs between the i-th buffer of c and the next one. */
  lemma LinkedInserted(om: Mbuf?, c: seq<Mbuf>, i: nat, g: seq<Mbuf>)
    requires i < |c| && g != [] && om == c[0] && c[i].next == g[0] && g[|g| - 1].next == At(c, i + 1)
    requires forall j {:trigger c[j].next} | 0 <= j < |c| && j != i :: c[j].next == At(c, j + 1)
    requires forall j {:trigger g[j].next} | 0 <= j < |g| - 1 :: g[j].next == At(g, j + 1)
    requires (forall j, k | 0 <= j < k < |c| :: c[j] != c[k]) && (forall j, k | 0 <= j < k < |g| :: g[j] != g[k])
    requires forall j, k | 0 <= j < |c| && 0 <= k < |g| :: c[j] != g[k]
    ensures Linked(om, c[..i + 1] + g + c[i + 1..])
  {
    var d := c[..i + 1] + g + c[i + 1..];
    forall j | 0 <= j < |d| ensures d[j].next == At(d, j + 1) {
      assert d[j] == if j <= i then c[j] else if j <= i + |g| then g[j - i - 1] else c[j - |g|];
    }
    assert forall j, k | 0 <= j < k < |d| :: d[j] != d[k];
  }

  lemma LinkedJoined(first: Mbuf, g: seq<Mbuf>, e: seq<Mbuf>)
    requires g != [] && first == g[0] && Linked(g[|g| - 1], [g[|g| - 1]] + e)
    requires forall j {:trigger g[j].next} | 0 <= j < |g| - 1 :: g[j].next == At(g, j + 1)
    requires forall j, k | 0 <= j < k < |g| :: g[j] != g[k]
    requires forall j, k | 0 <= j < |g| && 0 <= k < |e| :: g[j] != e[k]
    ensures Linked(first, g + e)
  {
    var d, f := g + e, [g[|g| - 1]] + e;
    forall j | 0 <= j < |d| ensures d[j].next == At(d, j + 1) {
      if j < |g| - 1 {
        assert d[j] == g[j];
      } else {
        assert d[j] == f[j - |g| + 1];
      }
    }
    assert forall j, k | 0 <= j < k < |d| :: d[j] != d[k] by {
      assert forall j | |g| <= j < |d| :: d[j] == f[j - |g| + 1];
    }
  }

  /** What the last buffer of a gap looks like on its own. */
  lemma LastAlone(first: Mbuf, g: seq<Mbuf>, ps: Pools)
    requires Packet(first, g) && Owned(g, ps) && g != [] && g[0].pkthdrLen == 0
    ensures var prev := g[|g| - 1];
            Packet(prev, [prev]) && Owned([prev], ps) && Set([prev]) == {prev} && prev.pkthdrLen == 0
    ensures first == g[0] && (forall j {:trigger g[j].next} | 0 <= j < |g| - 1 :: g[j].next == At(g, j + 1))
    ensures forall j, k | 0 <= j < k < |g| :: g[j] != g[k]
    ensures World(ps) && Set(g) !! FreeBlocks(ps)
    ensures forall j | 0 <= j < |g| :: g[j].pool in ps && g[j] !in g[|g| - 1].pool.free
    ensures Sound(Snaps(g)) && forall j | 0 <= j < |g| :: g[j].Snap() == Snaps(g)[j]
    ensures Set(g[..|g| - 1]) + {g[|g| - 1]} == Set(g)
  {
    hide Snaps, Sound, World, FreeBlocks;
    var k := |g| - 1;
    var prev := g[k];
    SnapsAt(g);
    SoundAt(Snaps(g), k);
    SnapsSlice(g, k);
    SoundSlice(Snaps(g), k);
    LinkedFrom(first, g, k);
    assert g[k..] == [prev];
    OwnedSplit(first, g, k, ps);
    PoolsOk(g, ps, prev.pool);
  }

  lemma SpreadAccounts(prev: Mbuf, extra: seq<Mbuf>, g: seq<Mbuf>, ps: Pools, before: set<Mbuf>)
    requires Packet(prev, [prev] + extra) && Owned([prev] + extra, ps) && prev in g && Set(g) !! before
    requires FreeBlocks(ps) + Set([prev] + extra) == before + {prev}
    ensures World(ps) && FreeBlocks(ps) + Set(extra) == before && prev.Snap().Ok() && Linked(prev, [prev] + extra)
    ensures Set(extra) !! Set(g) && Set(g) !! FreeBlocks(ps) && Set(extra) !! FreeBlocks(ps)
    ensures forall j, k | 0 <= j < |g| && 0 <= k < |extra| :: g[j] != extra[k]
    ensures forall k | 0 <= k < |extra| :: extra[k].pool in ps
  {
    hide World, FreeBlocks, Snaps;
    var e := [prev] + extra;
    SnapAt(e, 0);
    SoundAt(Snaps(e), 0);
    assert forall k | 0 <= k < |extra| :: extra[k] == e[k + 1];
    assert e[0] == prev && prev !in extra;
    assert Set(e) == {prev} + Set(extra) && prev in Set(g) && prev !in Set(extra);
    forall j, k | 0 <= j < |g| && 0 <= k < |extra| ensures g[j] != extra[k] {
      assert g[j] in Set(g) && extra[k] in Set(extra);
    }
  }

  /** g and then e: buffers taken for a gap, linked up to the last one, which leads on to e. */
  ghost predicate GapLinks(first: Mbuf, prev: Mbuf, g: seq<Mbuf>, e: seq<Mbuf>)
    reads g, e, prev
  {
    && g != [] && first == g[0] && prev == g[|g| - 1] && Sound(Snaps(g)) && g[0].pkthdrLen == 0
    && (forall j {:trigger g[j].next} | 0 <= j < |g| - 1 :: g[j].next == At(g, j + 1)) && Linked(prev, [prev] + e)
    && (forall j, k | 0 <= j < k < |g| :: g[j] != g[k]) && (forall j, k | 0 <= j < |g| && 0 <= k < |e| :: g[j] != e[k])
  }

  /** os_mbuf_append(prev, ...): the misplaced data goes to the last gap buffer, and into further buffers if it
      does not fit. */
  method SpreadTail(first: Mbuf, prev: Mbuf, ghost g: seq<Mbuf>, t: seq<byte>, ghost ps: Pools)
    returns (rc: int, ghost extra: seq<Mbuf>)
    requires Packet(first, g) && Owned(g, ps) && g != [] && prev == g[|g| - 1] && g[0].pkthdrLen == 0
    modifies prev.pool, prev.pool.free, prev
    ensures World(ps) && rc == if |t| <= old(Room([prev], prev.pool)) then 0 else OS_ENOMEM
    ensures GapLinks(first, prev, g, extra)
    ensures |extra| <= |old(prev.pool.free)| && extra == old(prev.pool.free)[..|extra|] && OfOne(extra, prev.pool)
    ensures (forall j | 0 <= j < |g| :: g[j].pool in ps) && (forall j | 0 <= j < |extra| :: extra[j].pool in ps)
    ensures FreeBlocks(ps) + Set(extra) == old(FreeBlocks(ps)) && Set(extra) !! Set(g) && Set(g) !! FreeBlocks(ps)
        && Set(extra) !! FreeBlocks(ps)
    ensures Bytes(g) == old(Bytes(g)) + Prefix(t, old(prev.TrailingSpace()))
    ensures rc == 0 ==> (extra == [] <==> |t| <= old(prev.TrailingSpace()))
    ensures rc == 0 ==> Needed(|extra|, |t| - old(prev.TrailingSpace()), prev.pool.databufLen)
  {
    hide Linked, Snaps, Content, Sound, World, FreeBlocks, Owned, Set, Packet, Prefix, Room, Buf.Data, Buf.Ok, Needed;
    ghost var s, F := Snaps(g), prev.pool.free;
    LastAlone(first, g, ps);
    FreePools(ps, prev.pool);
    ghost var c', n, k;
    rc, c', n, k := Append(prev, [prev], t, ps);
    extra := F[..k];
    SpreadAccounts(prev, extra, g, ps, old(FreeBlocks(ps)));
    SnapsUpdate(g, s, |g| - 1);
    SoundUpdate(s, |g| - 1, prev.Snap());
    ContentLast(s, prev.Snap(), Prefix(t, old(prev.TrailingSpace())));
  }

  lemma ContentGap(s: seq<Buf>, i: nat, b: Buf, sub: nat, sg: seq<Buf>)
    requires i < |s| && sub <= |s[i].Data()| && b.Data() == s[i].Data()[..sub]
    ensures var p := |Content(s[..i])| + sub;
            var t := |s[i].Data()| - sub;
            && p + t <= |Content(s)|
            && Content(s[i := b][..i + 1] + sg + s[i + 1..]) == Content(s)[..p] + Content(sg) + Content(s)[p + t..]
  {
    hide Content, Buf.Data;
    var a, d, e := Content(s[..i]), s[i].Data(), Content(s[i + 1..]);
    Parts(s, i);
    FrontParts(s, i, b);
    var f := s[i := b][..i + 1];
    ContentConcat(f + sg, s[i + 1..]);
    ContentConcat(f, sg);
    GapParts(a, d, e, sub, Content(sg), Content(s));
    assert |a| + sub + (|d| - sub) == |a| + |d|;
  }

  lemma Parts(s: seq<Buf>, i: nat)
    requires i < |s|
    ensures Content(s) == Content(s[..i]) + (s[i].Data() + Content(s[i + 1..]))
  {
    hide Content, Buf.Data;
    ContentSplit(s, i);
    ContentFrom(s, i);
  }

  lemma FrontParts(s: seq<Buf>, i: nat, b: Buf)
    requires i < |s|
    ensures Content(s[i := b][..i + 1]) == Content(s[..i]) + b.Data()
  {
    hide Content, Buf.Data;
    ContentUpTo(s[i := b], i);
    assert s[i := b][..i] == s[..i];
  }

  lemma GapParts(a: seq<byte>, d: seq<byte>, e: seq<byte>, sub: nat, g: seq<byte>, whole: seq<byte>)
    requires sub <= |d| && whole == a + (d + e)
    ensures a + d[..sub] + g + e == whole[..|a| + sub] + g + whole[|a| + |d|..]
  {
    CutMiddle(a, d, e, sub);
  }

  lemma SoundGap(s: seq<Buf>, i: nat, b: Buf, sg: seq<Buf>)
    requires Sound(s) && i < |s| && b.Ok() && b.pkthdrLen == s[i].pkthdrLen && Sound(sg) && sg != []
        && sg[0].pkthdrLen == 0
    ensures Sound(s[i := b][..i + 1] + sg + s[i + 1..])
  {
    hide Sound, Buf.Ok;
    SoundAt(s, i);
    SoundUpdate(s, i, b);
    SoundSlice(s[i := b], i + 1);
    SoundConcat(s[i := b][..i + 1], sg);
    SoundSlice(s, i + 1);
    if i + 1 < |s| {
      SoundAt(s, i + 1);
    }
    SoundConcat(s[i := b][..i + 1] + sg, s[i + 1..]);
  }

  lemma LinksOf(om: Mbuf?, c: seq<Mbuf>, i: nat)
    requires Linked(om, c) && i < |c|
    ensures om == c[0] && c[i].next == At(c, i + 1)
    ensures forall j {:trigger c[j].next} | 0 <= j < |c| && j != i :: c[j].next == At(c, j + 1)
    ensures forall j, k | 0 <= j < k < |c| :: c[j] != c[k]
  {
  }

  /** Cuts the edge buffer short and hangs g between it and its successor. */
  method OpenGap(om: Mbuf, ghost c: seq<Mbuf>, ghost i: nat, edge: Mbuf, sub: nat, first: Mbuf, prev: Mbuf,
                 ghost g: seq<Mbuf>)
    requires Packet(om, c) && i < |c| && edge == c[i] && sub <= edge.len
    requires Sound(Snaps(g)) && g != [] && first == g[0] && prev == g[|g| - 1] && g[0].pkthdrLen == 0
    requires forall j {:trigger g[j].next} | 0 <= j < |g| - 1 :: g[j].next == At(g, j + 1)
    requires (forall j, k | 0 <= j < k < |g| :: g[j] != g[k]) && (forall j, k | 0 <= j < |c|
        && 0 <= k < |g| :: c[j] != g[k])
    modifies edge`len, edge`next, prev`next
    ensures Packet(om, c[..i + 1] + g + c[i + 1..])
    ensures var p, t := |Content(old(Snaps(c))[..i])| + sub, old(edge.len) - sub;
            && p + t <= |old(Bytes(c))|
            && Bytes(c[..i + 1] + g + c[i + 1..]) == old(Bytes(c))[..p] + old(Bytes(g)) + old(Bytes(c))[p + t..]
  {
    hide Linked, Snaps, Content, Sound, Buf.Data;
    ghost var s, sg := Snaps(c), Snaps(g);
    SnapsAt(c);
    SnapAt(g, 0);
    SoundAt(s, i);
    DataLen(s, i);
    DataCut(s[i], sub);
    LinksOf(om, c, i);
    edge.len := sub;
    prev.next := edge.next;
    edge.next := first;
    LinkedInserted(om, c, i, g);
    SnapsUpdate(c, s, i);
    assert Snaps(g) == sg;
    SnapsSlice(c, i + 1);
    SnapsConcat(c[..i + 1] + g, c[i + 1..]);
    SnapsConcat(c[..i + 1], g);
    ghost var b := edge.Snap();
    assert s[i := b][i + 1..] == s[i + 1..];
    SoundGap(s, i, b, sg);
    ContentGap(s, i, b, sub, sg);
  }

  /** The trailing space of the last gap buffer, when len bytes are spread over buffers of d bytes. */
  function GapRoom(len: nat, d: nat): nat
    requires d > 0
  {
    (d - len % d) % d
  }

  lemma GapRoomIs(k: nat, len: nat, d: nat, room: nat)
    requires Capacity(k, d) == len + room && room < d
    ensures room == GapRoom(len, d)
  {
    if room == 0 {
      assert k * d == len;
      Pieces.QuotientIs(len, d, k);
      assert len % d == len - k * d;
    } else {
      assert (k - 1) * d == k * d - d;
      Pieces.QuotientIs(len, d, k - 1);
      assert len % d == len - (k - 1) * d;
    }
  }

  /** os_mbuf_free_chain(first_new) */
  method ReleaseGap(first: Mbuf, ghost prev: Mbuf, ghost g: seq<Mbuf>, ghost e: seq<Mbuf>, ghost ps: Pools)
    requires GapLinks(first, prev, g, e) && World(ps)
    requires (forall j | 0 <= j < |g| :: g[j].pool in ps) && (forall j | 0 <= j < |e| :: e[j].pool in ps)
    requires Set(g) !! FreeBlocks(ps) && Set(e) !! FreeBlocks(ps)
    modifies ps.Keys
    ensures World(ps) && FreeBlocks(ps) == old(FreeBlocks(ps)) + Set(g) + Set(e)
  {
    hide World, FreeBlocks, Linked, Snaps, Sound;
    LinkedJoined(first, g, e);
    assert Set(g + e) == Set(g) + Set(e);
    FreeChain(first, g + e, ps);
  }

  /** The buffers of the gap with the misplaced data t behind it; on failure they are all free again. */
  method GapWithTail(omp: Pool, len: nat, t: seq<byte>, ghost ps: Pools)
    returns (rc: int, first: Mbuf?, prev: Mbuf?, ghost g: seq<Mbuf>, ghost e: seq<Mbuf>, ghost gap: seq<byte>)
    requires World(ps) && omp in ps && len > 0 && omp.databufLen > 0
    modifies ps.Keys, omp.free
    ensures World(ps) && rc == if len + |t| <= Capacity(|old(omp.free)|, omp.databufLen) then 0 else OS_ENOMEM
    ensures rc != 0 ==> FreeBlocks(ps) == old(FreeBlocks(ps))
    ensures rc == 0 ==>
        && first != null && prev != null && prev in old(omp.free) && GapLinks(first, prev, g, e) && |gap| == len
    ensures rc == 0 ==>
        && Bytes(g) == gap + Prefix(t, GapRoom(len, omp.databufLen))
        && (e == [] <==> |t| <= GapRoom(len, omp.databufLen))
        && |g| > 0 && Needed(|g|, len, omp.databufLen) && OfOne(e, omp)
        && Needed(|e|, |t| - GapRoom(len, omp.databufLen), omp.databufLen)
    ensures rc == 0 ==> FreeBlocks(ps) + Set(e) + Set(g) == old(FreeBlocks(ps))
    ensures rc == 0 ==>
        && Set(e) !! Set(g) && Set(g) !! FreeBlocks(ps) && Set(e) !! FreeBlocks(ps)
        && forall j | 0 <= j < |g| :: g[j].pool in ps
  {
    hide World, FreeBlocks, Owned, Set, Packet, Bytes, Capacity, Linked, Snaps, Sound, GapRoom, Prefix, Pool.Ok, At,
         Mbuf.TrailingSpace, Mbuf.Snap, GapLinks, Content, Buf.Ok, Needed;
    ghost var F := omp.free;
    first, prev, g := MakeGap(omp, len, ps);
    e, gap := [], [];
    if first == null {
      rc := OS_ENOMEM;
      return;
    }
    HeadAt(first, g);
    InFree(F, |g|);
    gap := Bytes(g);
    GapRoomIs(|g|, len, omp.databufLen, prev.TrailingSpace());
    CapacitySum(|g|, |F| - |g|, omp.databufLen);
    ghost var before := FreeBlocks(ps);
    OwnedApart(g, ps);
    rc, e := SpreadTail(first, prev, g, t, ps);
    if rc != 0 {
      ReleaseGap(first, prev, g, e, ps);
    }
  }

  /** The accounts of a widened chain: the packet has c and g; e, if any, has dropped out of sight. */
  lemma WidenAccounts(c: seq<Mbuf>, i: nat, g: seq<Mbuf>, e: seq<Mbuf>, ps: Pools, before: set<Mbuf>)
    requires Set(c) !! before && i < |c| && FreeBlocks(ps) + Set(e) + Set(g) == before
    requires Set(e) !! Set(g) && Set(g) !! FreeBlocks(ps) && Set(e) !! FreeBlocks(ps) && World(ps)
    requires (forall j | 0 <= j < |g| :: g[j].pool in ps) && (forall j | 0 <= j < |c| :: c[j].pool in ps)
    ensures var d := c[..i + 1] + g + c[i + 1..];
            && Owned(d, ps) && FreeBlocks(ps) + Set(d) + Set(e) == before + Set(c) && Set(e) !! Set(d)
  {
    hide World, FreeBlocks;
    var d := c[..i + 1] + g + c[i + 1..];
    assert c == c[..i + 1] + c[i + 1..];
    assert Set(d) == Set(c) + Set(g);
  }

  lemma GapApart(c: seq<Mbuf>, g: seq<Mbuf>, e: seq<Mbuf>, free: set<Mbuf>, before: set<Mbuf>)
    requires Set(c) !! before && free + Set(e) + Set(g) == before
    ensures forall j, k | 0 <= j < |c| && 0 <= k < |g| :: c[j] != g[k]
  {
    forall j, k | 0 <= j < |c| && 0 <= k < |g| ensures c[j] != g[k] {
      assert c[j] in Set(c) && g[k] in Set(g);
    }
  }

  /** Hangs the buffers g into the chain behind the edge buffer; what lies in e stays outside. */
  method InsertGap(om: Mbuf, ghost c: seq<Mbuf>, ghost i: nat, edge: Mbuf, sub: nat, first: Mbuf, prev: Mbuf,
                   ghost g: seq<Mbuf>, ghost e: seq<Mbuf>, ghost ps: Pools, ghost before: set<Mbuf>)
    returns (ghost c': seq<Mbuf>)
    requires Packet(om, c) && i < |c| && edge == c[i] && sub <= edge.len && World(ps) && GapLinks(first, prev, g, e)
    requires Set(c) !! before && FreeBlocks(ps) + Set(e) + Set(g) == before
    requires Set(e) !! Set(g) && Set(g) !! FreeBlocks(ps) && Set(e) !! FreeBlocks(ps)
    requires (forall j | 0 <= j < |g| :: g[j].pool in ps) && (forall j | 0 <= j < |c| :: c[j].pool in ps)
    modifies edge`len, edge`next, prev`next
    ensures Packet(om, c') && Owned(c', ps) && |c'| == |c| + |g|
    ensures FreeBlocks(ps) + Set(c') + Set(e) == before + Set(c) && Set(e) !! Set(c') && Set(e) !! FreeBlocks(ps)
    ensures var p, t := |Content(old(Snaps(c))[..i])| + sub, old(edge.len) - sub;
            && p + t <= |old(Bytes(c))|
            && Bytes(c') == old(Bytes(c))[..p] + old(Bytes(g)) + old(Bytes(c))[p + t..]
  {
    hide World, FreeBlocks, Owned, Set, Packet, Bytes, Linked, Snaps, Sound, GapLinks, Content, Pool.Ok;
    GapApart(c, g, e, FreeBlocks(ps), before);
    WidenAccounts(c, i, g, e, ps, before);
    GapOpen(first, prev, g, e);
    OpenGap(om, c, i, edge, sub, first, prev, g);
    c' := c[..i + 1] + g + c[i + 1..];
  }

  /** The buffers taken for the gap and the ones lost are no more than needed: `gap` buffers for a gap of len bytes,
      and `lost` ones for what does not fit behind it of the t bytes moved. */
  ghost predicate WidenTakes(gap: int, lost: nat, t: nat, len: nat, d: nat)
    requires d > 0
  {
    gap > 0 && Needed(gap, len, d) && Needed(lost, t - GapRoom(len, d), d)
  }

  /** The slow path of os_mbuf_widen; what is read behind the gap ends early when the moved data spills over. */
  method WidenWithBuffers(om: Mbuf, ghost c: seq<Mbuf>, ghost i: nat, edge: Mbuf, sub: nat, len: nat, ghost ps: Pools)
    returns (rc: int, ghost c': seq<Mbuf>, ghost leaked: seq<Mbuf>, ghost gap: seq<byte>)
    requires Packet(om, c) && Owned(c, ps) && i < |c| && edge == c[i] && sub <= edge.len && len > 0
    modifies c, ps.Keys, om.pool.free
    ensures World(ps) && om.pool.databufLen > 0
    ensures rc == if len + old(edge.len) - sub <= Capacity(|old(om.pool.free)|, om.pool.databufLen) then 0
                  else OS_ENOMEM
    ensures rc != 0 ==>
        && c' == c && leaked == [] && Packet(om, c) && Owned(c, ps) && Bytes(c) == old(Bytes(c))
        && Snaps(c) == old(Snaps(c)) && FreeBlocks(ps) == old(FreeBlocks(ps))
    ensures rc == 0 ==> Packet(om, c') && Owned(c', ps) && |gap| == len
    ensures rc == 0 ==>
        && FreeBlocks(ps) + Set(c') + Set(leaked) == old(FreeBlocks(ps)) + Set(c) && Set(leaked) !! Set(c')
        && Set(leaked) !! FreeBlocks(ps)
    ensures OfOne(leaked, om.pool)
    ensures rc == 0 ==> (leaked == [] <==> old(edge.len) - sub <= GapRoom(len, om.pool.databufLen))
    ensures rc == 0 ==> WidenTakes(|c'| - |c|, |leaked|, old(edge.len) - sub, len, om.pool.databufLen)
    ensures rc == 0 ==> var p, t, b := |Content(old(Snaps(c))[..i])| + sub, old(edge.len) - sub, old(Bytes(c));
                        && p + t <= |b|
                        && Bytes(c') == b[..p] + gap
                                        + Prefix(b[p..p + t], GapRoom(len, om.pool.databufLen)) + b[p + t..]
    ensures om.pktLen == old(om.pktLen) && om.pkthdrLen == old(om.pkthdrLen) && om.databuf == old(om.databuf)
  {
    hide World, FreeBlocks, Owned, Set, Packet, Bytes, Capacity, Linked, Snaps, Sound, GapRoom, Prefix, GapLinks,
         Content, Pool.Ok, Needed;
    HeadAt(om, c);
    OwnedApart(c, ps);
    PoolsOk(c, ps, om.pool);
    PoolsOk(c, ps, edge.pool);
    c', leaked := c, [];
    EdgeTail(om, c, i, sub);
    var first, prev;
    ghost var g;
    rc, first, prev, g, leaked, gap := GapWithTail(om.pool, len, edge.Snap().Data()[sub..], ps);
    if rc != 0 {
      OwnedAgain(c, ps);
      leaked := [];
      return;
    }
    c' := InsertGap(om, c, i, edge, sub, first, prev, g, leaked, ps, old(FreeBlocks(ps)));
  }

  lemma GapOpen(first: Mbuf, prev: Mbuf, g: seq<Mbuf>, e: seq<Mbuf>)
    requires GapLinks(first, prev, g, e)
    ensures g != [] && first == g[0] && prev == g[|g| - 1] && Sound(Snaps(g)) && g[0].pkthdrLen == 0
    ensures forall j {:trigger g[j].next} | 0 <= j < |g| - 1 :: g[j].next == At(g, j + 1)
    ensures forall j, k | 0 <= j < k < |g| :: g[j] != g[k]
  {
  }

  lemma EdgeTail(om: Mbuf, c: seq<Mbuf>, i: nat, sub: nat)
    requires Packet(om, c) && i < |c| && sub <= c[i].len
    ensures |c[i].Snap().Data()| == c[i].len
    ensures var p, t := |Content(Snaps(c)[..i])| + sub, c[i].len - sub;
            p + t <= |Bytes(c)| && c[i].Snap().Data()[sub..] == Bytes(c)[p..p + t]
  {
    hide Linked, Snaps, Content, Sound, Buf.Data;
    var s := Snaps(c);
    SnapAt(c, i);
    DataLen(s, i);
    ContentSplit(s, i);
    ContentFrom(s, i);
  }

  /** Whether os_mbuf_widen keeps all bytes: the gap fits the edge buffer, or its tail fits behind the last gap
      buffer. */
  ghost predicate WidenKeeps(edge: Mbuf, sub: nat, len: nat, d: nat)
    requires d > 0
    reads edge
  {
    edge.TrailingSpace() >= len || edge.len - sub <= GapRoom(len, d)
  }

  lemma GapCases(b: seq<byte>, p: nat, t: nat, gap: seq<byte>, room: nat)
    requires p + t <= |b|
    ensures var r := b[..p] + gap + Prefix(b[p..p + t], room) + b[p + t..];
            && (t <= room ==> r == b[..p] + gap + b[p..])
            && (t > room ==> r == b[..p] + gap + b[p..p + room] + b[p + t..])
  {
    var x := b[p..p + t];
    if t <= room {
      assert Prefix(x, room) == x;
      JoinRest(b[..p] + gap, b, p, p + t);
    } else {
      assert Prefix(x, room) == x[..room] == b[p..p + room];
    }
  }

  lemma EdgeFits(om: Mbuf, c: seq<Mbuf>, i: nat)
    requires Packet(om, c) && i < |c|
    ensures c[i].TrailingSpace() >= 0
  {
    hide Linked, Snaps;
    SnapAt(c, i);
    SoundAt(Snaps(c), i);
  }

  /** What a successful widening at offset `off` makes of the bytes b, when t bytes lie behind the gap in the
      edge buffer. */
  ghost predicate Widened(b': seq<byte>, b: seq<byte>, off: nat, t: nat, gap: seq<byte>, keeps: bool, room: nat) {
    && off + t <= |b|
    && (keeps ==> b' == b[..off] + gap + b[off..])
    && (!keeps ==> room < t && b' == b[..off] + gap + b[off..off + room] + b[off + t..])
  }

  /** os_mbuf_widen once the edge buffer is known, but for the header's length field. */
  method WidenAt(om: Mbuf, ghost c: seq<Mbuf>, ghost i: nat, edge: Mbuf, sub: nat, ghost off: nat, len: uint16,
                 ghost ps: Pools)
    returns (rc: int, ghost c': seq<Mbuf>, ghost leaked: seq<Mbuf>, ghost gap: seq<byte>)
    requires Packet(om, c) && Owned(c, ps) && i < |c| && edge == c[i] && sub <= edge.len
        && off == |Content(Snaps(c)[..i])| + sub
    modifies c, ps.Keys, om.pool.free
    ensures World(ps) && om.pool.databufLen > 0
    ensures rc == if old(edge.TrailingSpace()) >= len
        || len + old(edge.len) - sub <= Capacity(|old(om.pool.free)|, om.pool.databufLen) then 0 else OS_ENOMEM
    ensures rc != 0 ==>
        && c' == c && leaked == [] && Packet(om, c) && Owned(c, ps) && Bytes(c) == old(Bytes(c))
        && Snaps(c) == old(Snaps(c)) && FreeBlocks(ps) == old(FreeBlocks(ps))
    ensures rc == 0 ==> Packet(om, c') && Owned(c', ps) && |gap| == len
    ensures rc == 0 ==>
        && FreeBlocks(ps) + Set(c') + Set(leaked) == old(FreeBlocks(ps)) + Set(c) && Set(leaked) !! Set(c')
        && Set(leaked) !! FreeBlocks(ps)
    ensures OfOne(leaked, om.pool)
    ensures rc == 0 ==> (leaked == [] <==> old(WidenKeeps(edge, sub, len, om.pool.databufLen)))
    ensures rc == 0 ==> if old(edge.TrailingSpace()) >= len then c' == c && leaked == []
                        else WidenTakes(|c'| - |c|, |leaked|, old(edge.len) - sub, len, om.pool.databufLen)
    ensures rc == 0 ==> Widened(Bytes(c'), old(Bytes(c)), off, old(edge.len) - sub, gap, leaked == [],
                                GapRoom(len, om.pool.databufLen))
    ensures om.pktLen == old(om.pktLen) && om.pkthdrLen == old(om.pkthdrLen) && om.Header() == old(om.Header())
  {
    hide World, FreeBlocks, Owned, Set, Packet, Bytes, Capacity, Snaps, GapRoom, Content, Mbuf.Header, Prefix,
         Pool.Ok, At, Linked, Sound, Buf.Data, WidenTakes;
    HeadAt(om, c);
    PoolsOk(c, ps, om.pool);
    EmptyChain(ps);
    EdgeFits(om, c, i);
    EdgeTail(om, c, i, sub);
    c', leaked, gap := c, [], [];
    if edge.TrailingSpace() >= len {
      gap := WidenInPlace(om, c, i, edge, sub, len);
      rc := 0;
    } else {
      ghost var t := edge.len - sub;
      rc, c', leaked, gap := WidenWithBuffers(om, c, i, edge, sub, len, ps);
      if rc == 0 {
        GapCases(old(Bytes(c)), off, t, gap, GapRoom(len, om.pool.databufLen));
      }
    }
  }

  /** os_mbuf_widen; i and sub locate the gap, leaked are buffers that end up in no chain and on no free list. */
  method Widen(om: Mbuf, ghost c: seq<Mbuf>, off: nat, len: uint16, ghost ps: Pools)
    returns (rc: int, ghost c': seq<Mbuf>, ghost leaked: seq<Mbuf>, ghost gap: seq<byte>, ghost i: nat, ghost sub: nat)
    requires Packet(om, c) && Owned(c, ps)
    modifies c, ps.Keys, om.pool.free
    ensures World(ps) && om.pool.databufLen > 0
    ensures off > |old(Bytes(c))| <==> rc == OS_EINVAL
    ensures off <= |old(Bytes(c))| ==>
        && i < |c| && sub <= old(c[i].len) && (sub == old(c[i].len) ==> i == |c| - 1)
        && off == |Content(old(Snaps(c))[..i])| + sub
    ensures off <= |old(Bytes(c))| ==> rc == if old(c[i].TrailingSpace()) >= len
        || len + old(c[i].len) - sub <= Capacity(|old(om.pool.free)|, om.pool.databufLen) then 0 else OS_ENOMEM
    ensures rc != 0 ==>
        && c' == c && leaked == [] && Packet(om, c) && Owned(c, ps) && Bytes(c) == old(Bytes(c))
        && Snaps(c) == old(Snaps(c)) && FreeBlocks(ps) == old(FreeBlocks(ps))
    ensures rc == 0 ==> Packet(om, c') && Owned(c', ps) && |gap| == len
    ensures rc == 0 ==>
        && FreeBlocks(ps) + Set(c') + Set(leaked) == old(FreeBlocks(ps)) + Set(c) && Set(leaked) !! Set(c')
        && Set(leaked) !! FreeBlocks(ps)
    ensures OfOne(leaked, om.pool)
    ensures rc == 0 ==> (leaked == [] <==> old(WidenKeeps(c[i], sub, len, om.pool.databufLen)))
    ensures rc == 0 ==> if old(c[i].TrailingSpace()) >= len then c' == c && leaked == []
                        else WidenTakes(|c'| - |c|, |leaked|, old(c[i].len) - sub, len, om.pool.databufLen)
    ensures rc == 0 ==> Widened(Bytes(c'), old(Bytes(c)), off, old(c[i].len) - sub, gap, leaked == [],
                                GapRoom(len, om.pool.databufLen))
    ensures om.pktLen == if rc == 0 && om.IsPkthdr() then U16(old(om.pktLen) + len) else old(om.pktLen)
    ensures om.pkthdrLen == old(om.pkthdrLen) && om.Header() == old(om.Header())
  {
    hide World, FreeBlocks, Owned, Set, Packet, Bytes, Capacity, Snaps, GapRoom, Content, U16, Mbuf.Header,
         WidenKeeps, Widened, Mbuf.TrailingSpace, WidenTakes;
    HeadAt(om, c);
    PoolsOk(c, ps, om.pool);
    var edge, s, j := Off(om, c, off);
    c', leaked, gap, i, sub := c, [], [], j, s;
    if edge == null {
      rc := OS_EINVAL;
      return;
    }
    rc, c', leaked, gap := WidenAt(om, c, i, edge, s, off, len, ps);
    if rc == 0 {
      HeadAt(om, c');
      if om.IsPkthdr() {
        SetPktLen(om, c', U16(om.pktLen + len));
      }
    }
  }

  /** The guard is necessary: when the tail does not fit, bytes of the packet are gone. */
  lemma WidenLoses(b': seq<byte>, b: seq<byte>, off: nat, t: nat, gap: seq<byte>, room: nat)
    requires Widened(b', b, off, t, gap, false, room)
    ensures |b'| == |b| + |gap| - (t - room) && b' != b[..off] + gap + b[off..]
  {
  }
}
