// mem_split_frag and the loop around it: cutting a packet into fragments.
module Fragments {
  import opened ByteSeqs
  import opened Bufs
  import opened Mbufs
  import opened Cursors
  import opened Appending
  import opened ChainCopy
  import opened Trimming
  import opened Shapes
  import opened Pieces
  import Counting

  /** A packet whose header states its true length. */
  ghost predicate Whole(om: Mbuf, c: seq<Mbuf>)
    reads om, c
  {
    Packet(om, c) && om.IsPkthdr() && om.pktLen == |Bytes(c)|
  }

  /** Whether q can hold a fragment of n bytes behind a header with userLen user bytes. */
  ghost predicate CanHold(q: Pool, userLen: nat, n: nat)
    reads q
  {
    HeaderFits(q, userLen) && PKTHDR_SIZE + userLen + n <= Capacity(|q.free|, q.databufLen)
  }

  lemma NewApart(c: seq<Mbuf>, ps: Pools, m: Mbuf, before: set<Mbuf>)
    requires Set(c) !! before && m in before && FreeBlocks(ps) == before - {m} && Set([m]) == {m}
    ensures Set(c) !! Set([m]) && Set(c) !! FreeBlocks(ps) && FreeBlocks(ps) + Set([m]) == before
  {
    hide *;
  }

  lemma RoomOfNew(frag: Mbuf, pool: Pool, f: nat)
    requires frag.pool == pool && frag.len == 0 && |pool.free| + 1 == f
    ensures Room([frag], pool) == Capacity(f, pool.databufLen) - frag.off
  {
    hide Capacity;
    CapacityStep(|pool.free|, pool.databufLen);
  }

  lemma NothingFree(pool: Pool)
    ensures pool.free == [] ==> Capacity(|pool.free|, pool.databufLen) == 0
  {
  }

  /** The first n bytes of the packet are appended to a new fragment; if they do not all fit, it is freed. */
  method FillFragment(frag: Mbuf, om: Mbuf, ghost c: seq<Mbuf>, n: nat, ghost ps: Pools)
    returns (ok: bool, ghost cf: seq<Mbuf>)
    requires Packet(frag, [frag]) && Owned([frag], ps) && Bytes([frag]) == [] && frag.IsPkthdr() && frag.pktLen == 0
    requires Packet(om, c) && Set(c) !! Set([frag]) && Set(c) !! FreeBlocks(ps) && Room([frag], frag.pool) >= 0
    requires frag.pool in ps
    modifies ps.Keys, frag.pool.free, frag
    ensures World(ps) && (ok <==> n <= |old(Bytes(c))| && n <= old(Room([frag], frag.pool)))
    ensures ok ==> Packet(frag, cf) && Owned(cf, ps) && n <= |old(Bytes(c))| && Bytes(cf) == old(Bytes(c))[..n]
    ensures ok ==> frag.pktLen == U16(n) && frag.pkthdrLen == old(frag.pkthdrLen)
    ensures ok ==> |cf| > 0 && Needed(|cf| - 1, n - old(frag.TrailingSpace()), frag.pool.databufLen)
    ensures ok ==> |cf| <= |old(frag.pool.free)| + 1 && cf == [frag] + old(frag.pool.free)[..|cf| - 1]
    ensures FreeBlocks(ps) + (if ok then Set(cf) else {}) == old(FreeBlocks(ps)) + Set([frag])
  {
    hide Packet, Bytes, Owned, Set, FreeBlocks, World, Snaps, Capacity, Room, U16, At, Pool.Ok, Mbuf.Header, Needed;
    ghost var b := Bytes(c);
    PoolsOk([frag], ps, frag.pool);
    OwnedApart([frag], ps);
    FreeReach(ps, frag.pool);
    var rc;
    ghost var k, got;
    rc, cf, got, k := AppendFrom(frag, [frag], om, c, 0, n, ps);
    OwnedApart(cf, ps);
    ok := rc == 0;
    if !ok {
      HeadAt(frag, cf);
      FreeChain(frag, cf, ps);
    }
  }

  /** A new fragment: a buffer from alloc_cb with the first n bytes of the packet appended. */
  method CopyFront(om: Mbuf, ghost c: seq<Mbuf>, n: nat, pool: Pool, userLen: nat, ghost ps: Pools)
    returns (frag: Mbuf?, ghost cf: seq<Mbuf>)
    requires Packet(om, c) && Owned(c, ps) && pool in ps && userLen < 0x100
    modifies ps.Keys, pool.free
    ensures World(ps)
    ensures frag == null <==> !old(CanHold(pool, userLen, n)) || n > |Bytes(c)|
    ensures frag == null ==> FreeBlocks(ps) == old(FreeBlocks(ps))
    ensures frag != null ==> Packet(frag, cf) && Owned(cf, ps) && n <= |Bytes(c)| && Bytes(cf) == Bytes(c)[..n]
    ensures frag != null ==> frag.IsPkthdr() && frag.pktLen == U16(n) && frag.pkthdrLen == userLen + PKTHDR_SIZE
    ensures frag != null ==> FreeBlocks(ps) + Set(cf) == old(FreeBlocks(ps))
    ensures frag != null ==> Needed(|cf|, PKTHDR_SIZE + userLen + n, pool.databufLen)
    ensures frag != null ==> |cf| <= |old(pool.free)| && cf == old(pool.free)[..|cf|]
    ensures Packet(om, c) && Bytes(c) == old(Bytes(c)) && forall m | m in c :: unchanged(m)
    ensures Snaps(c) == old(Snaps(c)) && Outline(c) == old(Outline(c))
  {
    hide Packet, Bytes, Owned, Set, FreeBlocks, World, Snaps, Capacity, Room, U16, At, Pool.Ok, Mbuf.Header, Needed,
         Outline;
    PoolsOk(c, ps, pool);
    OwnedApart(c, ps);
    NothingFree(pool);
    frag := GetPkthdr(pool, userLen, ps);
    cf := [];
    if frag == null {
      return;
    }
    NewApart(c, ps, frag, old(FreeBlocks(ps)));
    RoomOfNew(frag, pool, |old(pool.free)|);
    RoomNotNegative(frag, [frag], pool);
    var ok;
    ok, cf := FillFragment(frag, om, c, n, ps);
    if !ok {
      frag := null;
    } else {
      NeededToo(|cf| - 1, n, PKTHDR_SIZE + userLen, pool.databufLen);
    }
  }

  lemma NeededToo(k: nat, n: nat, h: nat, d: nat)
    requires Needed(k, n - (d - h), d) && 0 < h <= d
    ensures Needed(k + 1, h + n, d)
  {
    CapacityStep(k, d);
    if k > 0 {
      CapacityStep(k - 1, d);
    }
  }

  /** Taking blocks off the free lists leaves a live chain live, and apart from them. */
  lemma StillOwned(c: seq<Mbuf>, ps: Pools, cf: seq<Mbuf>, before: set<Mbuf>)
    requires World(ps) && Set(c) !! before && FreeBlocks(ps) + Set(cf) == before
    requires forall i | 0 <= i < |c| :: c[i].pool in ps
    ensures Owned(c, ps) && Set(c) !! Set(cf) && forall i | 0 <= i < |cf| :: cf[i] !in c
  {
    hide World, FreeBlocks;
    forall i | 0 <= i < |cf| ensures cf[i] !in c {
      assert cf[i] in Set(cf);
    }
  }

  /** The accounts after a split: old free blocks f0 and packet c became f1 and cf, then f2, cf and rest. */
  lemma Accounts(f0: set<Mbuf>, f1: set<Mbuf>, f2: set<Mbuf>, c: set<Mbuf>, cf: set<Mbuf>, rest: set<Mbuf>)
    requires c !! f0 && f1 + cf == f0 && f1 !! cf && f2 + rest == f1 + c
    ensures f2 + cf + rest == f0 + c && cf !! rest && cf !! f2
  {
    assert forall m | m in cf :: m !in f1 + c;
  }

  lemma SuffixSet(c: seq<Mbuf>, z: nat)
    requires c != [] && z <= |c|
    ensures Set(c[z..]) <= Set(c) && Set([c[0]]) <= Set(c) && Set([c[0]] + c[z..]) <= Set(c)
  {
  }

  lemma TrimmedFront(b: seq<byte>, n: nat)
    requires n <= |b|
    ensures Trimmed(b, n) == b[n..]
  {
  }

  /** mem_split_frag for any packet with a header; rest is what the caller's packet pointer becomes. */
  method SplitFrag(om: Mbuf, ghost c: seq<Mbuf>, maxFrag: uint16, pool: Pool, userLen: nat, ghost ps: Pools)
    returns (frag: Mbuf?, ghost cf: seq<Mbuf>, rest: Mbuf?, ghost c': seq<Mbuf>, ghost z: nat)
    requires Packet(om, c) && om.IsPkthdr() && Owned(c, ps) && pool in ps && userLen < 0x100
    modifies c, ps.Keys, pool.free
    ensures World(ps) && Owned(c', ps) && Set(c') <= Set(c)
    ensures FreeBlocks(ps) + Set(cf) + Set(c') == old(FreeBlocks(ps)) + Set(c) && Set(cf) !! Set(c')
    ensures old(om.pktLen) <= maxFrag ==> frag == om && rest == null && cf == c && c' == []
    ensures old(om.pktLen) > maxFrag ==>
        (frag == null <==> !old(CanHold(pool, userLen, maxFrag)) || |old(Bytes(c))| < maxFrag)
    ensures frag == null ==> rest == om && c' == c && cf == []
    ensures frag == null ==> !CanHold(pool, userLen, maxFrag) || |old(Bytes(c))| < maxFrag
    ensures frag == null || old(om.pktLen) <= maxFrag ==>
        && Packet(om, c) && Owned(c, ps) && Bytes(c) == old(Bytes(c)) && (forall m | m in c :: unchanged(m))
        && FreeBlocks(ps) == old(FreeBlocks(ps)) && Snaps(c) == old(Snaps(c))
    ensures frag != null ==> Owned(cf, ps)
    ensures old(om.pktLen) > maxFrag && frag != null ==>
        && Packet(frag, cf) && frag.IsPkthdr() && maxFrag <= |old(Bytes(c))| && Bytes(cf) == old(Bytes(c))[..maxFrag]
        && frag.pktLen == maxFrag
        && rest != null && Packet(rest, c') && rest.IsPkthdr() && Bytes(c') == old(Bytes(c))[maxFrag..]
        && rest.pktLen == old(om.pktLen) - maxFrag && rest.Header() == old(om.Header())
        && Needed(|cf|, PKTHDR_SIZE + userLen + maxFrag, pool.databufLen)
        && |cf| <= |old(pool.free)| && cf == old(pool.free)[..|cf|]
    ensures old(om.pktLen) > maxFrag && frag != null ==>
        var s := old(Snaps(c));
        && z <= |c| && |Content(s[..z])| <= maxFrag && (z < |c| ==> maxFrag < |Content(s[..z + 1])|)
        && c' == if z == 0 then c
                 else if z == |c| then [om]
                 else if s[z].off + maxFrag - |Content(s[..z])| >= old(om.pkthdrLen) then c[z..]
                 else [om] + c[z..]
    ensures old(om.pktLen) > maxFrag && frag != null ==>
        rest.pkthdrLen == old(om.pkthdrLen) && Splits(Outline(c'), old(Outline(c)), old(om.pkthdrLen), maxFrag)
  {
    hide Packet, Bytes, Owned, Set, FreeBlocks, World, Capacity, U16, Snaps, Mbuf.Header, Needed, Content,
         Splits, Outline, Buf.Ok;
    c', cf, z := c, [], 0;
    HeadAt(om, c);
    OwnedApart(c, ps);
    PoolsOk(c, ps, om.pool);
    if om.pktLen <= maxFrag {
      EmptyChain(ps);
      return om, c, null, [], 0;
    }
    FreeOfPool(ps, pool);
    frag, cf := CopyFront(om, c, maxFrag, pool, userLen, ps);
    if frag == null {
      FreeOfPool(ps, pool);
      EmptyChain(ps);
      StillOwned(c, ps, [], old(FreeBlocks(ps)));
      return null, [], om, c, 0;
    }
    StillOwned(c, ps, cf, old(FreeBlocks(ps)));
    HeadAt(frag, cf);
    U16Same(maxFrag);
    U16Same(om.pktLen - maxFrag);
    rest, c', z := CutFront(om, c, maxFrag, ps, frag, cf);
    OwnedApart(c', ps);
  }

  /** The chain behind a cut: the places of the data, and which buffers remain. */
  lemma CutLeaves(om: Mbuf, c: seq<Mbuf>, c': seq<Mbuf>, s: seq<Buf>, t0: seq<Shape>, hdr: nat, n: nat, z: nat)
    requires c != [] && om == c[0] && |s| == |t0| == |c| && Sound(s) && FrontGone(Outline(c), s, n)
    requires forall j | 0 <= j < |s| :: t0[j] == Shape(s[j].off, s[j].len)
    requires z <= |c| && (forall j | 0 <= j < z :: c[j].len == 0) && (z < |c| ==> c[z].len != 0)
    requires c' == if z == 0 then c else if z == |c| then [om] else if c[z].off >= hdr then c[z..] else [om] + c[z..]
    ensures |Content(s[..z])| <= n && (z < |c| ==> n < |Content(s[..z + 1])|)
    ensures z < |c| ==> c[z].off == s[z].off + n - |Content(s[..z])|
    ensures Splits(Outline(c'), t0, hdr, n)
  {
    hide Content, Sound, FrontGone, Outline, Front;
    var t := Outline(c);
    ShapesAt(c);
    FirstLeft(t, s, n, z);
    FrontOfCut(t, t0, s, n, z);
    ShapesSlice(c, z);
    ShapesCons(om, c[z..]);
    if z == |c| {
      assert c[z..] == [] && [om] + c[z..] == [om];
    }
    if z == 0 {
      assert c[0..] == c && t[0..] == t;
    }
  }

  lemma ShapesOf(om: Mbuf, c: seq<Mbuf>)
    requires Packet(om, c)
    ensures Sound(Snaps(c)) && c != [] && om == c[0]
    ensures forall j | 0 <= j < |c| :: Outline(c)[j] == Shape(Snaps(c)[j].off, Snaps(c)[j].len)
  {
    hide Snaps, Outline, Sound;
    HeadAt(om, c);
    SnapsAt(c);
    ShapesAt(c);
  }

  /** os_mbuf_adj and os_mbuf_trim_front: the first n bytes leave, and with them the buffers they emptied. With z the
      buffer that the n-th byte is in, the packet starts there if the header has room in front of what is left of it,
      and otherwise the old head, now empty, stays in front. */
  method ShortenFront(om: Mbuf, ghost c: seq<Mbuf>, n: uint16, ghost ps: Pools)
    returns (rest: Mbuf, ghost c': seq<Mbuf>, ghost z: nat)
    requires Packet(om, c) && om.IsPkthdr() && Owned(c, ps) && n <= |Bytes(c)|
    modifies c, ps.Keys
    ensures Packet(rest, c') && Owned(c', ps) && Bytes(c') == old(Bytes(c))[n..]
    ensures rest.IsPkthdr() && rest.pktLen == U16(old(om.pktLen) - n) && rest.Header() == old(om.Header())
    ensures rest.pkthdrLen == old(om.pkthdrLen) && Set(c') <= Set(c)
    ensures FreeBlocks(ps) + Set(c') == old(FreeBlocks(ps)) + Set(c)
    ensures var s := old(Snaps(c));
            && z <= |c| && |Content(s[..z])| <= n && (z < |c| ==> n < |Content(s[..z + 1])|)
            && c' == if z == 0 then c
                     else if z == |c| then [om]
                     else if s[z].off + n - |Content(s[..z])| >= old(om.pkthdrLen) then c[z..]
                     else [om] + c[z..]
    ensures Splits(Outline(c'), old(Outline(c)), old(om.pkthdrLen), n)
  {
    hide Packet, Bytes, Owned, Set, FreeBlocks, World, U16, Snaps, Mbuf.Header, FrontGone, Splits, Outline, Content,
         Sound;
    ghost var s, t0 := Snaps(c), Outline(c);
    ShapesOf(om, c);
    TrimmedFront(Bytes(c), n);
    ghost var c0 := Adj(om, c, n, ps);
    rest, c', z := TrimFront(om, c, ps);
    SuffixSet(c, z);
    ShapesAt(c);
    CutLeaves(om, c, c', s, t0, old(om.pkthdrLen), n, z);
  }

  /** The source side of a split: the front leaves the packet and emptied buffers are freed if possible. */
  method CutFront(om: Mbuf, ghost c: seq<Mbuf>, n: uint16, ghost ps: Pools, ghost frag: Mbuf, ghost cf: seq<Mbuf>)
    returns (rest: Mbuf, ghost c': seq<Mbuf>, ghost z: nat)
    requires Packet(om, c) && om.IsPkthdr() && Owned(c, ps) && n <= |Bytes(c)|
    requires Packet(frag, cf) && Owned(cf, ps) && Set(cf) !! Set(c) && forall i | 0 <= i < |cf| :: cf[i] !in c
    modifies c, ps.Keys
    ensures Packet(rest, c') && Owned(c', ps) && Bytes(c') == old(Bytes(c))[n..]
    ensures rest.IsPkthdr() && rest.pktLen == U16(old(om.pktLen) - n) && rest.Header() == old(om.Header())
    ensures rest.pkthdrLen == old(om.pkthdrLen)
    ensures FreeBlocks(ps) + Set(c') == old(FreeBlocks(ps)) + Set(c)
    ensures Packet(frag, cf) && Owned(cf, ps) && Bytes(cf) == old(Bytes(cf)) && Set(cf) !! Set(c') && Set(c') <= Set(c)
    ensures frag.pktLen == old(frag.pktLen) && frag.pkthdrLen == old(frag.pkthdrLen)
    ensures var s := old(Snaps(c));
            && z <= |c| && |Content(s[..z])| <= n && (z < |c| ==> n < |Content(s[..z + 1])|)
            && c' == if z == 0 then c
                     else if z == |c| then [om]
                     else if s[z].off + n - |Content(s[..z])| >= old(om.pkthdrLen) then c[z..]
                     else [om] + c[z..]
    ensures Splits(Outline(c'), old(Outline(c)), old(om.pkthdrLen), n)
  {
    hide Packet, Bytes, Owned, Set, FreeBlocks, World, U16, Snaps, Mbuf.Header, Splits, Outline, Content;
    HeadAt(om, c);
    HeadAt(frag, cf);
    OwnedApart(c, ps);
    OwnedApart(cf, ps);
    PoolsOk(cf, ps, frag.pool);
    rest, c', z := ShortenFront(om, c, n, ps);
    OwnedApart(c', ps);
    Accounts(old(FreeBlocks(ps)) + Set(cf), old(FreeBlocks(ps)), FreeBlocks(ps), Set(c), Set(cf), Set(c'));
    OwnedAgain(cf, ps);
  }

  /** What is handed over is handed over in a fragment: every buffer in `held` belongs to one of the chains. */
  ghost predicate OnlySent(chains: seq<seq<Mbuf>>, held: set<Mbuf>) {
    forall b | b in held :: exists i :: 0 <= i < |chains| && b in Set(chains[i])
  }

  lemma OnlySentNext(chains: seq<seq<Mbuf>>, held: set<Mbuf>, cf: seq<Mbuf>)
    requires OnlySent(chains, held)
    ensures OnlySent(chains + [cf], held + Set(cf))
  {
    hide Set;
    var next := chains + [cf];
    forall b | b in held + Set(cf) ensures exists i :: 0 <= i < |next| && b in Set(next[i]) {
      if b in held {
        var i :| 0 <= i < |chains| && b in Set(chains[i]);
        assert next[i] == chains[i];
      } else {
        assert next[|chains|] == cf;
      }
    }
  }

  /** Packets handed over for sending: each is whole and holds its payload, and together they are made of the buffers
      in `held` and no others. */
  ghost predicate Handed(sent: seq<Mbuf>, chains: seq<seq<Mbuf>>, payloads: seq<seq<byte>>, held: set<Mbuf>)
    reads held
  {
    && |sent| == |chains| == |payloads|
    && (forall i | 0 <= i < |sent| :: sent[i] in held && Set(chains[i]) <= held)
    && (forall i | 0 <= i < |sent| :: Separate(sent[i], chains[i], held) && Bytes(chains[i]) == payloads[i])
    && (forall i, j | 0 <= i < j < |sent| :: Set(chains[i]) !! Set(chains[j]))
    && OnlySent(chains, held)
  }

  ghost predicate Separate(om: Mbuf, c: seq<Mbuf>, held: set<Mbuf>)
    requires om in held && Set(c) <= held
    reads held
  {
    assert forall i | 0 <= i < |c| :: c[i] in Set(c);
    Whole(om, c)
  }

  lemma HandedNext(sent: seq<Mbuf>, chains: seq<seq<Mbuf>>, payloads: seq<seq<byte>>, held: set<Mbuf>, frag: Mbuf,
                   cf: seq<Mbuf>)
    requires Handed(sent, chains, payloads, held) && Whole(frag, cf) && Set(cf) !! held
    ensures Handed(sent + [frag], chains + [cf], payloads + [Bytes(cf)], held + Set(cf))
  {
    hide Packet, Bytes, OnlySent;
    HeadAt(frag, cf);
    OnlySentNext(chains, held, cf);
    forall i | 0 <= i < |sent| ensures Separate(sent[i], chains[i], held + Set(cf)) {
      assert Separate(sent[i], chains[i], held);
    }
  }

  /** Leaving aside the blocks in `back`, q has too few free blocks for one more fragment of n bytes. */
  ghost predicate Starved(q: Pool, userLen: nat, n: nat, back: set<Mbuf>)
    reads q
  {
    !HeaderFits(q, userLen) || PKTHDR_SIZE + userLen + n > Capacity(|Set(q.free) - back|, q.databufLen)
  }

  /** The error branch of the sending loop: the rest of the packet is freed. */
  method FreeUnsent(om: Mbuf, ghost c: seq<Mbuf>, ghost pool: Pool, ghost userLen: nat, ghost n: nat, ghost ps: Pools)
    requires Linked(om, c) && Owned(c, ps) && pool in ps && !CanHold(pool, userLen, n)
    modifies ps.Keys
    ensures World(ps) && FreeBlocks(ps) == old(FreeBlocks(ps)) + Set(c)
    ensures Starved(pool, userLen, n, Set(c)) && Bytes(c) == old(Bytes(c))
  {
    hide World, FreeBlocks, Set, Linked, Capacity, Owned;
    OwnedApart(c, ps);
    FreeOfPool(ps, pool);
    FreeChain(om, c, ps);
    FreeOfPool(ps, pool);
    assert Set(pool.free) - Set(c) == old(Set(pool.free));
  }

  /** How many buffers of d bytes hold n bytes. */
  function Blocks(n: nat, d: nat): nat {
    if d == 0 then 0 else (n + d - 1) / d
  }

  lemma BlocksNeeded(k: nat, n: nat, d: nat)
    requires n > 0 && d > 0 && Needed(k, n, d)
    ensures k == Blocks(n, d)
  {
    CapacityStep(k - 1, d);
    QuotientIs(n + d - 1, d, k);
  }

  /** A pool can hold a fragment exactly if it has the blocks for it. */
  lemma HoldsIf(q: Pool, userLen: nat, n: nat)
    requires q.databufLen > 0
    ensures CanHold(q, userLen, n) <==>
        HeaderFits(q, userLen) && Blocks(PKTHDR_SIZE + userLen + n, q.databufLen) <= |q.free|
  {
    var d, m := q.databufLen, PKTHDR_SIZE + userLen + n;
    var b := Blocks(m, d);
    assert b * d <= m + d - 1 < b * d + d by {
      assert m + d - 1 == (m + d - 1) / d * d + (m + d - 1) % d;
    }
    if b <= |q.free| {
      CapacityGrows(b, |q.free|, d);
    } else {
      CapacityGrows(|q.free|, b - 1, d);
      CapacityStep(b - 1, d);
    }
  }

  ghost predicate OnePool(c: seq<Mbuf>, q: Pool) {
    forall i | 0 <= i < |c| :: c[i].pool == q
  }

  /** The free count after a split: the fragment's blocks are gone, and buffers of the packet may have come back. */
  lemma FreeAfter(f0: set<Mbuf>, f1: set<Mbuf>, c: seq<Mbuf>, cf: seq<Mbuf>, c': seq<Mbuf>, q: Pool)
    requires f1 + Set(cf) + Set(c') == f0 + Set(c) && Set(cf) !! Set(c') && Set(c') <= Set(c)
    requires Set(c) !! f0 && f1 !! Set(cf) && f1 !! Set(c') && OnePool(cf, q)
    requires |Set(cf)| == |cf| && |Set(c)| == |c| && |Set(c')| == |c'|
    ensures |OfPool(f1, q)| + |cf| >= |OfPool(f0, q)|
    ensures OnePool(c, q) ==> |OfPool(f1, q)| + |cf| + |c'| == |OfPool(f0, q)| + |c|
  {
    PoolShare(f0, Set(c), f1, Set(cf), Set(c'), q);
    AllOfPool(cf, q);
    if OnePool(c, q) {
      AllOfPool(c, q);
      assert forall i | 0 <= i < |c'| :: c'[i] in Set(c');
      AllOfPool(c', q);
    }
    assert OfPool(Set(c'), q) <= OfPool(Set(c), q);
    Counting.SubsetCount(OfPool(Set(c'), q), OfPool(Set(c), q));
  }

  lemma AllOfPool(c: seq<Mbuf>, q: Pool)
    requires OnePool(c, q)
    ensures OfPool(Set(c), q) == Set(c)
  {
  }

  lemma SetSize(om: Mbuf?, c: seq<Mbuf>)
    requires Packet(om, c)
    ensures |Set(c)| == |c|
  {
    hide Snaps, Sound;
    DistinctCount(c);
  }

  /** mem_split_frag on a packet whose header is right: the next piece, or NULL if there is no room for it. */
  method NextPiece(om: Mbuf, ghost c: seq<Mbuf>, mtu: uint16, pool: Pool, userLen: nat, ghost ps: Pools)
    returns (frag: Mbuf?, ghost cf: seq<Mbuf>, rest: Mbuf?, ghost c': seq<Mbuf>)
    requires Whole(om, c) && Owned(c, ps) && pool in ps && userLen < 0x100 && mtu > 0
    modifies c, ps.Keys, pool.free
    ensures Owned(c', ps) && Set(c') <= Set(c)
    ensures FreeBlocks(ps) + Set(cf) + Set(c') == old(FreeBlocks(ps)) + Set(c) && Set(cf) !! Set(c')
    ensures frag == null ==>
        && c' == c && cf == [] && Packet(om, c) && Bytes(c) == old(Bytes(c)) && FreeBlocks(ps) == old(FreeBlocks(ps))
    ensures frag == null ==> !CanHold(pool, userLen, mtu) && |Chunks(Bytes(c), mtu)| > 1
    ensures frag != null ==> Whole(frag, cf) && Owned(cf, ps)
    ensures frag != null && rest == null ==> c' == []
    ensures frag != null && rest != null ==> Whole(rest, c') && |Bytes(c')| < |old(Bytes(c))|
    ensures frag != null ==>
        Chunks(old(Bytes(c)), mtu) == [Bytes(cf)] + if rest == null then [] else Chunks(Bytes(c'), mtu)
    ensures frag == null ==>
        && |pool.free| == |old(pool.free)|
        && (!HeaderFits(pool, userLen) || Blocks(PKTHDR_SIZE + userLen + mtu, pool.databufLen) > |pool.free|)
    ensures frag != null && rest != null ==>
        && HeaderFits(pool, userLen) && Blocks(PKTHDR_SIZE + userLen + mtu, pool.databufLen) <= |old(pool.free)|
        && rest.pkthdrLen == old(om.pkthdrLen) && Splits(Outline(c'), old(Outline(c)), old(om.pkthdrLen), mtu)
        && |pool.free| + Blocks(PKTHDR_SIZE + userLen + mtu, pool.databufLen) >= |old(pool.free)|
        && (OnePool(c, pool) ==>
              |pool.free| + Blocks(PKTHDR_SIZE + userLen + mtu, pool.databufLen) + |c'| == |old(pool.free)| + |c|)
  {
    hide Packet, Bytes, Owned, Set, FreeBlocks, World, CanHold, Needed, OfPool, Blocks, HeaderFits, Splits, Outline,
         Snaps, Content, Pool.Ok;
    HeadAt(om, c);
    PoolsOk(c, ps, pool);
    OwnedApart(c, ps);
    FreeOfPool(ps, pool);
    HoldsIf(pool, userLen, mtu);
    FreePools(ps, pool);
    SetSize(om, c);
    ghost var z;
    frag, cf, rest, c', z := SplitFrag(om, c, mtu, pool, userLen, ps);
    HoldsIf(pool, userLen, mtu);
    FreeOfPool(ps, pool);
    if frag != null && rest != null {
      BlocksNeeded(|cf|, PKTHDR_SIZE + userLen + mtu, pool.databufLen);
      OwnedApart(cf, ps);
      OwnedApart(c', ps);
      SetSize(frag, cf);
      SetSize(rest, c');
      FreeAfter(old(FreeBlocks(ps)), FreeBlocks(ps), c, cf, c', pool);
    }
  }

  /** Every block is free, or in a packet handed over, or in what is left of the packet. */
  ghost predicate Accounted(free: set<Mbuf>, held: set<Mbuf>, left: set<Mbuf>, all: set<Mbuf>) {
    free + held + left == all && held !! free && held !! left
  }

  lemma AccountedStart(free: set<Mbuf>, left: set<Mbuf>)
    ensures Accounted(free, {}, left, free + left)
  {
  }

  lemma AccountedNext(free: set<Mbuf>, held: set<Mbuf>, left: set<Mbuf>, all: set<Mbuf>, free': set<Mbuf>,
                      sent: set<Mbuf>, left': set<Mbuf>)
    requires Accounted(free, held, left, all) && free' + sent + left' == free + left
    requires sent !! left' && sent !! free' && left' <= left
    ensures Accounted(free', held + sent, left', all) && sent !! held
  {
    assert forall m | m in sent :: m in free + left;
  }

  lemma AccountedEnd(free: set<Mbuf>, held: set<Mbuf>, left: set<Mbuf>, all: set<Mbuf>)
    requires Accounted(free, held, left, all)
    ensures free + left + held == all && free + left !! held
  {
  }

  /** One turn of the sending loop: the next piece joins the ones handed over, which stay as they are. */
  method SendNext(om: Mbuf, ghost c: seq<Mbuf>, mtu: uint16, pool: Pool, userLen: nat, ghost ps: Pools, sent: seq<Mbuf>,
                  ghost chains: seq<seq<Mbuf>>, ghost payloads: seq<seq<byte>>, ghost held: set<Mbuf>,
                  ghost all: set<Mbuf>)
    returns (frag: Mbuf?, ghost cf: seq<Mbuf>, rest: Mbuf?, ghost c': seq<Mbuf>)
    requires Whole(om, c) && Owned(c, ps) && pool in ps && userLen < 0x100 && mtu > 0
    requires Handed(sent, chains, payloads, held) && Accounted(FreeBlocks(ps), held, Set(c), all)
    modifies c, ps.Keys, pool.free
    ensures Owned(c', ps) && Set(c') <= Set(c)
    ensures frag == null ==>
        && c' == c && cf == [] && Packet(om, c) && Bytes(c) == old(Bytes(c)) && FreeBlocks(ps) == old(FreeBlocks(ps))
    ensures frag == null ==> !CanHold(pool, userLen, mtu) && |Chunks(Bytes(c), mtu)| > 1
    ensures frag == null ==> Handed(sent, chains, payloads, held)
    ensures frag != null ==> Handed(sent + [frag], chains + [cf], payloads + [Bytes(cf)], held + Set(cf))
    ensures frag != null ==> Accounted(FreeBlocks(ps), held + Set(cf), Set(c'), all)
    ensures frag != null && rest == null ==> c' == []
    ensures frag != null && rest != null ==> Whole(rest, c') && |Bytes(c')| < |old(Bytes(c))|
    ensures frag != null ==>
        Chunks(old(Bytes(c)), mtu) == [Bytes(cf)] + if rest == null then [] else Chunks(Bytes(c'), mtu)
    ensures frag == null ==>
        && |pool.free| == |old(pool.free)|
        && (!HeaderFits(pool, userLen) || Blocks(PKTHDR_SIZE + userLen + mtu, pool.databufLen) > |pool.free|)
    ensures frag != null && rest != null ==>
        && HeaderFits(pool, userLen) && Blocks(PKTHDR_SIZE + userLen + mtu, pool.databufLen) <= |old(pool.free)|
        && rest.pkthdrLen == old(om.pkthdrLen) && Splits(Outline(c'), old(Outline(c)), old(om.pkthdrLen), mtu)
        && |pool.free| + Blocks(PKTHDR_SIZE + userLen + mtu, pool.databufLen) >= |old(pool.free)|
        && (OnePool(c, pool) ==>
              |pool.free| + Blocks(PKTHDR_SIZE + userLen + mtu, pool.databufLen) + |c'| == |old(pool.free)| + |c|)
  {
    hide Packet, Bytes, Owned, Set, FreeBlocks, World, CanHold, Handed, Needed, Chunks;
    OwnedApart(c, ps);
    InReach(c, c, ps, pool, all, held);
    frag, cf, rest, c' := NextPiece(om, c, mtu, pool, userLen, ps);
    if frag != null {
      OwnedApart(cf, ps);
      AccountedNext(old(FreeBlocks(ps)), held, Set(c), all, FreeBlocks(ps), Set(cf), Set(c'));
      HandedNext(sent, chains, payloads, held, frag, cf);
    }
  }

  /** The pieces made so far, and the ones still to be made. */
  ghost predicate Pieced(made: seq<seq<byte>>, left: seq<seq<byte>>, all: seq<seq<byte>>) {
    made + left == all
  }

  lemma PieceMade(made: seq<seq<byte>>, p: seq<byte>, left: seq<seq<byte>>, all: seq<seq<byte>>)
    requires Pieced(made, [p] + left, all)
    ensures Pieced(made + [p], left, all) && (left == [] ==> made + [p] == all)
  {
    assert made + [p] + left == made + ([p] + left);
  }

  lemma PiecesLeft(made: seq<seq<byte>>, left: seq<seq<byte>>, all: seq<seq<byte>>)
    requires Pieced(made, left, all) && left != []
    ensures |made| < |all| && made == all[..|made|] && left == all[|made|..]
  {
  }

  lemma NoneMade(b: seq<byte>, m: nat)
    requires m > 0
    ensures Pieced([], Chunks(b, m), Chunks(b, m)) && |Chunks(b, m)| > 0
  {
  }

  /** How many buffers splits of n bytes in all have given back. */
  function Returned(t: seq<Shape>, hdr: nat, n: nat): int
    requires t != []
  {
    if n == 0 then 0 else |t| - Kept(t, hdr, n)
  }

  /** With f blocks free at first, the pool has b more for the next fragment after k of them, in spite of the b blocks
      that each has taken, and thanks to the buffers given back by the packet, if they come from the pool. */
  predicate Affords(t: seq<Shape>, hdr: nat, mtu: nat, k: nat, f: nat, b: nat)
    requires t != []
  {
    (k + 1) * b <= f + Returned(t, hdr, k * mtu)
  }

  /** The balance after k fragments: u is left of t, and `free` blocks are free. */
  ghost predicate Balance(u: seq<Shape>, t: seq<Shape>, hdr: nat, mtu: nat, k: nat, free: nat, f: nat, b: nat,
                          one: bool)
  {
    && t != [] && LeftOver(u, t, hdr, k * mtu) && free + k * b >= f
    && (one ==> free + |u| + k * b == f + |t| && forall j: nat | j < k :: Affords(t, hdr, mtu, j, f, b))
  }

  lemma BalanceNext(u: seq<Shape>, t: seq<Shape>, hdr: nat, mtu: nat, k: nat, free: nat, f: nat, b: nat, one: bool,
                    v: seq<Shape>, free': nat)
    requires Balance(u, t, hdr, mtu, k, free, f, b, one) && mtu > 0 && b <= free
    requires Splits(v, u, hdr, mtu) && free' + b >= free && (one ==> free' + b + |v| == free + |u|)
    ensures Balance(v, t, hdr, mtu, k + 1, free', f, b, one)
  {
    hide LeftOver, Splits, Kept;
    assert (k + 1) * mtu == k * mtu + mtu && (k + 1) * b == k * b + b;
    LeftNext(u, t, hdr, k * mtu, mtu, v);
    LeftSize(u, t, hdr, k * mtu);
  }

  /** All fragments but the last, which is what is left of the packet, have been paid for. */
  ghost predicate Paid(t: seq<Shape>, hdr: nat, mtu: nat, n: nat, f: nat, b: nat, one: bool) {
    t != [] && (one ==> forall j: nat | j < n - 1 :: Affords(t, hdr, mtu, j, f, b))
  }

  lemma BalanceDone(u: seq<Shape>, t: seq<Shape>, hdr: nat, mtu: nat, k: nat, free: nat, f: nat, b: nat, one: bool)
    requires Balance(u, t, hdr, mtu, k, free, f, b, one)
    ensures Paid(t, hdr, mtu, k + 1, f, b, one)
  {
    hide LeftOver, Kept;
  }

  lemma BalanceStart(om: Mbuf, c: seq<Mbuf>, hdr: nat, mtu: nat, f: nat, b: nat, one: bool)
    requires Packet(om, c)
    ensures Outline(c) != [] && Balance(Outline(c), Outline(c), hdr, mtu, 0, f, f, b, one)
  {
    hide Outline;
    HeadAt(om, c);
  }

  /** The answer of the loop, once it has sent k of n pieces. */
  ghost predicate RightAnswer(rc: int, t: seq<Shape>, hdr: nat, mtu: nat, n: nat, f: nat, b: nat, fits: bool,
                              one: bool)
  {
    && t != [] && (n == 1 || (fits && (n - 1) * b <= f) ==> rc == 0)
    && (one ==> (rc == 0 <==> n == 1 || (fits && forall k: nat | k < n - 1 :: Affords(t, hdr, mtu, k, f, b))))
  }

  lemma AnswerFailed(u: seq<Shape>, t: seq<Shape>, hdr: nat, mtu: nat, k: nat, free: nat, f: nat, b: nat, fits: bool,
                     one: bool, n: nat)
    requires Balance(u, t, hdr, mtu, k, free, f, b, one) && (b > free || !fits) && k < n - 1
    ensures RightAnswer(OS_ENOMEM, t, hdr, mtu, n, f, b, fits, one)
  {
    hide Balance, Affords;
    BalanceOf(u, t, hdr, mtu, k, free, f, b, one);
    if b > free {
      BalanceFails(u, t, hdr, mtu, k, free, f, b, one, n - 1);
    }
  }

  lemma BalanceOf(u: seq<Shape>, t: seq<Shape>, hdr: nat, mtu: nat, k: nat, free: nat, f: nat, b: nat, one: bool)
    requires Balance(u, t, hdr, mtu, k, free, f, b, one)
    ensures t != []
  {
  }

  lemma AnswerMeans(rc: int, t: seq<Shape>, hdr: nat, mtu: nat, n: nat, f: nat, b: nat, fits: bool, one: bool)
    requires RightAnswer(rc, t, hdr, mtu, n, f, b, fits, one)
    ensures n == 1 || (fits && (n - 1) * b <= f) ==> rc == 0
    ensures t != []
    ensures one ==> (rc == 0 <==> n == 1 || (fits && forall k: nat | k < n - 1 :: Affords(t, hdr, mtu, k, f, b)))
  {
  }

  lemma AnswerSent(t: seq<Shape>, hdr: nat, mtu: nat, n: nat, f: nat, b: nat, fits: bool, one: bool)
    requires Paid(t, hdr, mtu, n, f, b, one) && (n > 1 ==> fits) && n > 0
    ensures RightAnswer(0, t, hdr, mtu, n, f, b, fits, one)
  {
    hide Affords;
  }

  lemma LeftSize(u: seq<Shape>, t: seq<Shape>, hdr: nat, n: nat)
    requires t != [] && LeftOver(u, t, hdr, n)
    ensures |u| == |t| - Returned(t, hdr, n)
  {
  }

  lemma BalanceFails(u: seq<Shape>, t: seq<Shape>, hdr: nat, mtu: nat, k: nat, free: nat, f: nat, b: nat, one: bool,
                     n: nat)
    requires Balance(u, t, hdr, mtu, k, free, f, b, one) && b > free && k < n
    ensures n * b > f && (one ==> !Affords(t, hdr, mtu, k, f, b))
  {
    hide LeftOver, Kept;
    LeftSize(u, t, hdr, k * mtu);
    CapacityStep(k, b);
    CapacityGrows(k + 1, n, b);
  }

  /** The same with the pieces still to come and the balance of blocks: t is the packet at first, `pieces` are its
      pieces, f blocks were free, and b go into a fragment. */
  method Advance(om: Mbuf, ghost c: seq<Mbuf>, mtu: uint16, pool: Pool, userLen: nat, ghost ps: Pools, sent: seq<Mbuf>,
                 ghost chains: seq<seq<Mbuf>>, ghost payloads: seq<seq<byte>>, ghost held: set<Mbuf>,
                 ghost stock: set<Mbuf>, ghost t: seq<Shape>, ghost hdr: nat, ghost pieces: seq<seq<byte>>,
                 ghost f: nat, ghost b: nat, ghost fits: bool, ghost one: bool)
    returns (frag: Mbuf?, ghost cf: seq<Mbuf>, rest: Mbuf?, ghost c': seq<Mbuf>)
    requires Whole(om, c) && Owned(c, ps) && pool in ps && userLen < 0x100 && mtu > 0 && om.pkthdrLen == hdr
    requires Handed(sent, chains, payloads, held) && Accounted(FreeBlocks(ps), held, Set(c), stock)
    requires b == Blocks(PKTHDR_SIZE + userLen + mtu, pool.databufLen) && fits == HeaderFits(pool, userLen)
    requires Pieced(payloads, Chunks(Bytes(c), mtu), pieces) && (|payloads| > 0 ==> fits) && (one ==> OnePool(c, pool))
    requires Balance(Outline(c), t, hdr, mtu, |payloads|, |pool.free|, f, b, one)
    modifies c, ps.Keys, pool.free
    ensures Owned(c', ps) && Set(c') <= Set(c) && World(ps)
    ensures frag == null ==>
        && c' == c && cf == [] && Linked(om, c) && !CanHold(pool, userLen, mtu)
        && Handed(sent, chains, payloads, held) && Accounted(FreeBlocks(ps), held, Set(c), stock)
        && |payloads| < |pieces| && payloads == pieces[..|payloads|]
        && Chunks(Bytes(c), mtu) == pieces[|payloads|..]
        && RightAnswer(OS_ENOMEM, t, hdr, mtu, |pieces|, f, b, fits, one)
    ensures frag != null ==>
        && Handed(sent + [frag], chains + [cf], payloads + [Bytes(cf)], held + Set(cf))
        && Accounted(FreeBlocks(ps), held + Set(cf), Set(c'), stock)
    ensures frag != null && rest == null ==>
        c' == [] && payloads + [Bytes(cf)] == pieces && RightAnswer(0, t, hdr, mtu, |pieces|, f, b, fits, one)
    ensures frag != null && rest != null ==>
        && Whole(rest, c') && rest.pkthdrLen == hdr && |Bytes(c')| < |old(Bytes(c))| && fits
        && Pieced(payloads + [Bytes(cf)], Chunks(Bytes(c'), mtu), pieces)
        && Balance(Outline(c'), t, hdr, mtu, |payloads| + 1, |pool.free|, f, b, one)
  {
    hide Packet, Bytes, Owned, Set, FreeBlocks, World, CanHold, Handed, Needed, Chunks, Pieced, Outline, Splits,
         Balance,
         Paid, RightAnswer, Blocks, HeaderFits, Content, Snaps, Pool.Ok, Affords, Accounted, At, OnePool;
    ghost var k, free, u, left := |payloads|, |pool.free|, Outline(c), Chunks(Bytes(c), mtu);
    HeadAt(om, c);
    frag, cf, rest, c' := SendNext(om, c, mtu, pool, userLen, ps, sent, chains, payloads, held, stock);
    OwnedApart(c', ps);
    if frag == null {
      FollowAt(om, c, 0);
      PiecesLeft(payloads, left, pieces);
      AnswerFailed(u, t, hdr, mtu, k, free, f, b, fits, one, |pieces|);
      return;
    }
    PieceMade(payloads, Bytes(cf), if rest == null then [] else Chunks(Bytes(c'), mtu), pieces);
    if rest == null {
      BalanceDone(u, t, hdr, mtu, k, free, f, b, one);
      AnswerSent(t, hdr, mtu, |pieces|, f, b, fits, one);
    } else {
      BalanceNext(u, t, hdr, mtu, k, free, f, b, one, Outline(c'), |pool.free|);
    }
  }

  /** The loop given with mem_split_frag: fragments are sent until the packet is used up or a split fails. */
  method FragmentAll(om: Mbuf, ghost c: seq<Mbuf>, mtu: uint16, pool: Pool, userLen: nat, ghost ps: Pools)
    returns (rc: int, sent: seq<Mbuf>, ghost chains: seq<seq<Mbuf>>, ghost payloads: seq<seq<byte>>,
             ghost held: set<Mbuf>, ghost unsent: seq<Mbuf>)
    requires Whole(om, c) && Owned(c, ps) && pool in ps && userLen < 0x100 && mtu > 0
    modifies c, ps.Keys, FreeBlocks(ps)
    ensures World(ps) && Handed(sent, chains, payloads, held)
    ensures FreeBlocks(ps) + held == old(FreeBlocks(ps)) + Set(c) && FreeBlocks(ps) !! held
    ensures rc == 0 ==> payloads == Chunks(old(Bytes(c)), mtu)
    ensures rc != 0 ==>
        && Set(unsent) <= Set(c) && Set(unsent) <= FreeBlocks(ps) && Starved(pool, userLen, mtu, Set(unsent))
    ensures rc != 0 ==>
        && |payloads| < |Chunks(old(Bytes(c)), mtu)| && payloads == Chunks(old(Bytes(c)), mtu)[..|payloads|]
        && Chunks(Bytes(unsent), mtu) == Chunks(old(Bytes(c)), mtu)[|payloads|..]
    ensures var n, b := |Chunks(old(Bytes(c)), mtu)|, Blocks(PKTHDR_SIZE + userLen + mtu, pool.databufLen);
            && c != [] && (n == 1 || (HeaderFits(pool, userLen) && (n - 1) * b <= |old(pool.free)|) ==> rc == 0)
            && ((forall i | 0 <= i < |c| :: c[i].pool == pool) ==>
                  (rc == 0 <==>
                     || n == 1
                     || (HeaderFits(pool, userLen) && forall k: nat | k < n - 1 ::
                           Affords(old(Outline(c)), old(om.pkthdrLen), mtu, k, |old(pool.free)|, b))))
  {
    hide Packet, Bytes, Owned, Set, FreeBlocks, World, CanHold, Handed, Needed, Chunks, Pieced, Starved, Outline,
         Splits, Balance, Paid, RightAnswer, Blocks, HeaderFits, Content, Snaps, Pool.Ok, Affords, Accounted, At;
    var rsp: Mbuf? := om;
    ghost var cr, all, stock := c, Chunks(Bytes(c), mtu), FreeBlocks(ps) + Set(c);
    ghost var t, hdr, f, one := Outline(c), om.pkthdrLen, |pool.free|, OnePool(c, pool);
    ghost var b, fits := Blocks(PKTHDR_SIZE + userLen + mtu, pool.databufLen), HeaderFits(pool, userLen);
    AccountedStart(FreeBlocks(ps), Set(c));
    sent, chains, payloads, held, unsent := [], [], [], {}, [];
    HandedNone();
    NoneMade(Bytes(c), mtu);
    BalanceStart(om, c, hdr, mtu, f, b, one);
    OwnedApart(c, ps);
    rc := 0;
    while rsp != null
      invariant Owned(cr, ps) && World(ps) && Set(cr) <= Set(c)
      invariant Handed(sent, chains, payloads, held) && Accounted(FreeBlocks(ps), held, Set(cr), stock)
      invariant rsp == null ==> cr == [] && payloads == all && RightAnswer(0, t, hdr, mtu, |all|, f, b, fits, one)
      invariant rsp != null ==>
          && Whole(rsp, cr) && rsp.pkthdrLen == hdr && (|payloads| > 0 ==> fits)
          && Pieced(payloads, Chunks(Bytes(cr), mtu), all)
          && Balance(Outline(cr), t, hdr, mtu, |payloads|, |pool.free|, f, b, one)
      decreases if rsp == null then 0 else |Bytes(cr)| + 1
    {
      InSame(cr, c, pool);
      InReach(cr, c, ps, pool, old(FreeBlocks(ps)), held);
      var frag, rest;
      ghost var cf, c';
      frag, cf, rest, c' := Advance(rsp, cr, mtu, pool, userLen, ps, sent, chains, payloads, held, stock, t, hdr, all,
                                    f, b, fits, one);
      if frag == null {
        AnswerMeans(OS_ENOMEM, t, hdr, mtu, |all|, f, b, fits, one);
        unsent := cr;
        AccountedEnd(FreeBlocks(ps), held, Set(cr), stock);
        FreeUnsent(rsp, cr, pool, userLen, mtu, ps);
        rc := OS_ENOMEM;
        return;
      }
      sent, chains, payloads, held := sent + [frag], chains + [cf], payloads + [Bytes(cf)], held + Set(cf);
      rsp, cr := rest, c';
    }
    EmptyChain(ps);
    AccountedEnd(FreeBlocks(ps), held, Set(cr), stock);
    AnswerMeans(0, t, hdr, mtu, |all|, f, b, fits, one);
  }

  lemma InSame(cr: seq<Mbuf>, c: seq<Mbuf>, q: Pool)
    requires Set(cr) <= Set(c)
    ensures OnePool(c, q) ==> OnePool(cr, q)
  {
    assert forall i | 0 <= i < |cr| :: cr[i] in Set(cr);
  }

  lemma HandedNone()
    ensures Handed([], [], [], {})
  {
  }

  /** Everything a split may touch belonged to the packet or the pools from the start. */
  lemma InReach(cr: seq<Mbuf>, c: seq<Mbuf>, ps: Pools, q: Pool, before: set<Mbuf>, held: set<Mbuf>)
    requires World(ps) && q in ps && Set(cr) <= Set(c) && Accounted(FreeBlocks(ps), held, Set(cr), before + Set(c))
    ensures forall i | 0 <= i < |cr| :: cr[i] in c && cr[i] !in held
    ensures forall i | 0 <= i < |q.free| :: (q.free[i] in before || q.free[i] in c) && q.free[i] !in held
  {
    hide World, FreeBlocks;
    forall i | 0 <= i < |cr| ensures cr[i] in c && cr[i] !in held {
      assert cr[i] in Set(cr);
    }
    forall i | 0 <= i < |q.free| ensures (q.free[i] in before || q.free[i] in c) && q.free[i] !in held {
      FreeReach(ps, q);
      assert q.free[i] in before + Set(c);
    }
  }
}
