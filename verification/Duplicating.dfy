// os_mbuf_dup: a second chain with the same contents.
module Duplicating {
  import opened ByteSeqs
  import opened Bufs
  import opened Mbufs

  /** b is a copy of a: the same header, data and flags; data behind a header is moved up against it. */
  predicate Alike(a: Buf, b: Buf) {
    && a.len == b.len && a.flags == b.flags && a.Data() == b.Data()
    && a.pkthdrLen == b.pkthdrLen && Prefix(a.databuf, a.pkthdrLen) == Prefix(b.databuf, b.pkthdrLen)
    && (a.pkthdrLen > 0 ==> a.pktLen == b.pktLen)
    && b.off == if a.pkthdrLen > 0 then a.pkthdrLen else a.off
  }

  lemma HeaderOf(m: Mbuf)
    requires m.Snap().Ok()
    ensures m.Header() == Prefix(m.databuf, m.pkthdrLen) && (m.IsPkthdr() <==> m.pkthdrLen > 0)
    ensures m.LeadingSpace() == (if m.pkthdrLen > 0 then m.off - m.pkthdrLen else m.off)
  {
  }

  lemma CopyAlike(a: Buf, b: Buf)
    requires a.Ok() && b.Ok() && a.len == b.len && a.flags == b.flags
        && b.Data() == a.databuf[a.off..a.off + a.len]
    requires a.pkthdrLen == b.pkthdrLen && (a.pkthdrLen > 0
        ==> Prefix(a.databuf, a.pkthdrLen) == Prefix(b.databuf, b.pkthdrLen) && a.pktLen == b.pktLen)
    requires b.off == if a.pkthdrLen > 0 then a.pkthdrLen else a.off
    ensures Alike(a, b)
  {
  }

  /** Flags, length and data of om go into the new buffer m. */
  method CopyContents(m: Mbuf, om: Mbuf)
    requires m != om && m.Snap().Ok() && om.Snap().Ok() && m.len == 0 && m.off + om.len <= m.pool.databufLen
    requires m.pkthdrLen == om.pkthdrLen && (om.pkthdrLen > 0 ==> m.Header() == om.Header() && m.pktLen == om.pktLen)
    requires m.off == if om.pkthdrLen > 0 then om.pkthdrLen else om.off
    modifies m`flags, m`databuf, m`len
    ensures m.Snap().Ok() && Alike(om.Snap(), m.Snap())
  {
    hide Buf.Data;
    HeaderOf(om);
    HeaderOf(m);
    NoData(m.Snap());
    m.flags := om.flags;
    NoData(m.Snap());
    m.Fill(om.databuf[om.off..om.off + om.len]);
    HeaderOf(m);
    assert m.Header() == m.databuf[..m.off][..m.pkthdrLen];
    CopyAlike(om.Snap(), m.Snap());
  }

  /** One round of os_mbuf_dup: a new buffer from omp that is a copy of om. */
  method CopyOne(om: Mbuf, first: bool, omp: Pool, ghost ps: Pools) returns (m: Mbuf?)
    requires World(ps) && omp in ps && om !in omp.free && om.off + om.len <= omp.databufLen
    requires om.Snap().Ok() && if first then om.pool == omp else om.pkthdrLen == 0
    modifies omp, omp.free
    ensures World(ps) && (m == null <==> old(omp.free) == [])
    ensures m == null ==> omp.free == old(omp.free) && FreeBlocks(ps) == old(FreeBlocks(ps))
    ensures m != null ==> m == old(omp.free)[0] && omp.free == old(omp.free)[1..] && m.pool == omp
    ensures m != null ==> m in old(FreeBlocks(ps)) && FreeBlocks(ps) == old(FreeBlocks(ps)) - {m}
    ensures m != null ==> m.next == null && m.Snap().Ok() && Alike(om.Snap(), m.Snap())
  {
    hide World, FreeBlocks, Buf.Data, Alike, Mbuf.Header;
    HeaderOf(om);
    m := Get(omp, om.LeadingSpace(), ps);
    if m != null {
      if first && om.IsPkthdr() {
        CopyPkthdr(m, om);
      }
      CopyContents(m, om);
    }
  }

  /** The list t copies the first buffers of s, one by one. */
  ghost predicate CopiesOf(s: seq<Buf>, t: seq<Buf>) {
    |t| <= |s| && forall j | 0 <= j < |t| :: Alike(s[j], t[j])
  }

  lemma CopiesNext(s: seq<Buf>, t: seq<Buf>, b: Buf)
    requires CopiesOf(s, t) && |t| < |s| && Alike(s[|t|], b)
    ensures CopiesOf(s, t + [b])
  {
    hide Alike;
  }

  lemma {:induction false} CopiesSame(s: seq<Buf>, t: seq<Buf>)
    requires CopiesOf(s, t) && |s| == |t|
    ensures Content(s) == Content(t)
  {
    if s != [] {
      assert Alike(s[0], t[0]);
      CopiesSame(s[1..], t[1..]);
    }
  }

  lemma SameHeaderLen(m: Mbuf, b: Mbuf)
    requires Alike(m.Snap(), b.Snap())
    ensures m.pkthdrLen == b.pkthdrLen
  {
  }

  /** The new buffer becomes the head of the copy or is linked behind its last buffer. */
  method LinkCopy(head: Mbuf?, ghost e: seq<Mbuf>, copy: Mbuf?, m: Mbuf) returns (head': Mbuf)
    requires Packet(head, e) && copy == (if e == [] then null else e[|e| - 1]) && m !in e
    requires m.Snap().Ok() && m.next == null && (e != [] ==> m.pkthdrLen == 0)
    modifies e`next
    ensures Packet(head', e + [m]) && Snaps(e + [m]) == old(Snaps(e)) + [m.Snap()]
  {
    hide Snaps, Sound, Buf.Ok;
    ghost var t := Snaps(e);
    if head == null {
      assert e == [] && e + [m] == [m];
      SnapsSnoc(e, m);
      SoundSingle(t, m.Snap());
      return m;
    }
    copy.next := m;
    SnapsSnoc(e, m);
    SoundSnoc(t, m.Snap());
    return head;
  }

  lemma SoundSingle(t: seq<Buf>, b: Buf)
    requires b.Ok() && t == []
    ensures Sound(t + [b])
  {
  }

  /** The data of every buffer fits, in its place, a buffer of the first one's pool; always so for a chain from
      one pool. */
  ghost predicate DupFits(c: seq<Mbuf>)
    reads c`off, c`len
  {
    forall i | 0 <= i < |c| :: c[i].off + c[i].len <= c[0].pool.databufLen
  }

  lemma OnePoolFits(om: Mbuf?, c: seq<Mbuf>)
    requires Packet(om, c) && forall i | 0 <= i < |c| :: c[i].pool == c[0].pool
    ensures DupFits(c)
  {
    hide Snaps, Linked;
    SnapsAt(c);
  }

  lemma SourceAt(om: Mbuf, c: seq<Mbuf>, i: nat, ps: Pools)
    requires Packet(om, c) && Owned(c, ps) && DupFits(c)
    ensures c != [] && om == c[0] && om.pool in ps && |om.pool.free| == om.pool.numFree
    ensures forall j | 0 <= j < |c| :: c[j] !in om.pool.free && c[j].off + c[j].len <= om.pool.databufLen
    ensures i < |c| ==>
        && c[i].Snap() == Snaps(c)[i] && c[i].Snap().Ok() && c[i].next == At(c, i + 1)
        && (i > 0 ==> c[i].pkthdrLen == 0)
  {
    hide Snaps, Buf.Ok, Owned;
    PoolsOk(c, ps, c[0].pool);
    if i < |c| {
      SnapAt(c, i);
      SoundAt(Snaps(c), i);
    }
  }

  lemma SourceApart(c: seq<Mbuf>, f: seq<Mbuf>, i: nat)
    requires i < |f| && forall j | 0 <= j < |c| :: c[j] !in f
    ensures forall j | 0 <= j < |c| :: c[j] !in f[i + 1..] && c[j] !in f[i..] && c[j] !in f[..i]
    ensures f[i..][0] == f[i] && f[i..][1..] == f[i + 1..] && f[..i] + [f[i]] == f[..i + 1]
  {
  }

  /** One round of os_mbuf_dup: a copy of the i-th buffer goes behind the i copies made so far. */
  method DupStep(ghost om: Mbuf, ghost c: seq<Mbuf>, cur: Mbuf, omp: Pool, head: Mbuf?, ghost e: seq<Mbuf>, copy: Mbuf?,
                 ghost ps: Pools)
    returns (m: Mbuf?, head': Mbuf?)
    requires Packet(om, c) && Owned(c, ps) && DupFits(c) && |e| < |c| && cur == c[|e|] && omp == om.pool
    requires Packet(head, e) && Owned(e, ps) && copy == (if e == [] then null else e[|e| - 1])
        && CopiesOf(Snaps(c), Snaps(e)) && Set(c) !! Set(e)
    modifies omp, omp.free, e`next
    ensures Packet(om, c) && Snaps(c) == old(Snaps(c)) && Owned(c, ps) && DupFits(c)
    ensures m == null <==> old(omp.free) == []
    ensures m == null ==>
        && omp.free == [] && FreeBlocks(ps) == old(FreeBlocks(ps)) && Packet(head, e) && Owned(e, ps)
    ensures m != null ==> m == old(omp.free)[0] && omp.free == old(omp.free)[1..]
    ensures m != null ==> Packet(head', e + [m]) && Owned(e + [m], ps) && CopiesOf(Snaps(c), Snaps(e + [m]))
    ensures m != null ==> FreeBlocks(ps) + Set(e + [m]) == old(FreeBlocks(ps)) + Set(e)
  {
    hide Packet, Owned, World, FreeBlocks, Set, Snaps, DupFits, Alike, CopiesOf, Buf.Ok, Mbuf.Snap, Pool.Ok;
    ghost var f := FreeBlocks(ps);
    SourceAt(om, c, |e|, ps);
    OwnedApart(c, ps);
    OwnedApart(e, ps);
    PoolsOk(c, ps, omp);
    PoolsOk(e, ps, omp);
    head' := head;
    FollowAt(head, e, 0);
    Apart(c, e);
    m := CopyOne(cur, head == null, omp, ps);
    OwnedAgain(c, ps);
    if m == null {
      OwnedAgain(e, ps);
    } else {
      OwnedSnoc(e, m, ps, f);
      SameHeaderLen(cur, m);
      CopiesNext(Snaps(c), Snaps(e), m.Snap());
      head' := LinkCopy(head, e, copy, m);
    }
  }

  /** The copying loop of os_mbuf_dup; it ends early when the pool is empty. */
  method DupLoop(om: Mbuf, ghost c: seq<Mbuf>, ghost ps: Pools)
    returns (done: bool, head: Mbuf?, ghost e: seq<Mbuf>)
    requires Packet(om, c) && Owned(c, ps) && DupFits(c)
    modifies om.pool, om.pool.free
    ensures Packet(om, c) && Owned(c, ps) && Snaps(c) == old(Snaps(c))
    ensures Packet(head, e) && Owned(e, ps) && FreeBlocks(ps) + Set(e) == old(FreeBlocks(ps))
        && CopiesOf(Snaps(c), Snaps(e))
    ensures |e| <= |old(om.pool.free)| && e == old(om.pool.free)[..|e|] && om.pool.free == old(om.pool.free)[|e|..]
    ensures |e| <= |c| && (done <==> |e| == |c|) && (!done ==> om.pool.free == [])
  {
    hide Packet, Owned, World, FreeBlocks, Set, Snaps, DupFits, Alike, CopiesOf, Buf.Ok, Mbuf.Snap, Pool.Ok;
    ghost var s := Snaps(c);
    ghost var before := FreeBlocks(ps);
    SourceAt(om, c, 0, ps);
    OwnedApart(c, ps);
    ghost var F := om.pool.free;
    var omp := om.pool;
    var copy: Mbuf?, cur: Mbuf? := null, om;
    ghost var i: nat := 0;
    head, e := null, [];
    NothingCopied(s, ps);
    while cur != null
      invariant i <= |c| && i <= |F| && cur == At(c, i) && e == F[..i] && om.pool.free == F[i..]
      invariant Packet(om, c) && Owned(c, ps) && DupFits(c) && Snaps(c) == s
      invariant Packet(head, e) && Owned(e, ps) && FreeBlocks(ps) + Set(e) == before
      invariant copy == (if e == [] then null else e[|e| - 1])
      invariant CopiesOf(s, Snaps(e))
      decreases |c| - i
    {
      SourceAt(om, c, i, ps);
      var m, head' := DupStep(om, c, cur, omp, head, e, copy, ps);
      if m == null {
        return false, head, e;
      }
      SourceApart(c, F, i);
      head, copy := head', m;
      e := e + [m];
      cur := cur.next;
      i := i + 1;
    }
    done := true;
  }

  /** os_mbuf_dup */
  method Dup(om: Mbuf, ghost c: seq<Mbuf>, ghost ps: Pools) returns (r: Mbuf?, ghost e: seq<Mbuf>)
    requires Packet(om, c) && Owned(c, ps) && DupFits(c)
    modifies ps.Keys, om.pool.free
    ensures World(ps) && Packet(om, c) && Snaps(c) == old(Snaps(c))
    ensures r == null <==> |old(om.pool.free)| < |c|
    ensures r == null ==> FreeBlocks(ps) == old(FreeBlocks(ps))
    ensures r != null ==>
        && Packet(r, e) && Owned(e, ps) && FreeBlocks(ps) + Set(e) == old(FreeBlocks(ps)) && Set(e) !! Set(c)
    ensures r != null ==> |e| == |c| && CopiesOf(Snaps(c), Snaps(e)) && Bytes(e) == Bytes(c)
    ensures r != null ==> e == old(om.pool.free)[..|c|] && om.pool.free == old(om.pool.free)[|c|..]
  {
    hide Packet, Owned, World, FreeBlocks, Set, Snaps, DupFits, CopiesOf, Pool.Ok, Content, At;
    SourceAt(om, c, 0, ps);
    OwnedApart(c, ps);
    var done;
    done, r, e := DupLoop(om, c, ps);
    OwnedApart(e, ps);
    if done {
      NoHead(r, e);
      CopiesSame(Snaps(c), Snaps(e));
    } else {
      FollowAt(r, e, 0);
      FreeChain(r, e, ps);
      r := null;
    }
  }

  lemma NoHead(r: Mbuf?, e: seq<Mbuf>)
    requires Packet(r, e)
    ensures r == null <==> e == []
  {
  }

  lemma NothingCopied(s: seq<Buf>, ps: Pools)
    requires World(ps)
    ensures Packet(null, []) && Owned([], ps) && Set([]) == {} && CopiesOf(s, Snaps([]))
  {
  }
}
