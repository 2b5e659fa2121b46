// The whole population of buffers over any run of calls.
module Systems {
  import opened ByteSeqs
  import opened Bufs
  import opened Mbufs
  import opened Appending
  import opened Packing
  import Widening
  import opened Effects
  import opened Runs

  ghost function Union(cs: seq<seq<Mbuf>>): set<Mbuf> {
    if cs == [] then {} else Set(cs[0]) + Union(cs[1..])
  }

  /** hs heads the packets cs, no buffer is in two of them and, if `right`, every header states its packet's length. */
  ghost predicate Live(hs: seq<Mbuf>, cs: seq<seq<Mbuf>>, right: bool)
    reads Union(cs)
    decreases |cs|
  {
    if cs == [] then hs == []
    else
      && hs != [] && Packet(hs[0], cs[0]) && (right ==> Counted(cs[0]))
      && Set(cs[0]) !! Union(cs[1..]) && Live(hs[1..], cs[1..], right)
  }

  /** Any packet may be set aside; the others are still packets of their own. */
  lemma {:induction false} TakeOut(hs: seq<Mbuf>, cs: seq<seq<Mbuf>>, right: bool, i: nat)
    requires Live(hs, cs, right) && i < |hs|
    ensures |hs| == |cs| && Packet(hs[i], cs[i]) && (right ==> Counted(cs[i]))
        && Live(Without(hs, i), Without(cs, i), right)
    ensures Union(cs) == Set(cs[i]) + Union(Without(cs, i)) && Set(cs[i]) !! Union(Without(cs, i))
    decreases |cs|
  {
    hide Packet, Set, Counted;
    if cs != [] {
      SameSize(hs, cs, right);
      if i == 0 {
        assert Without(hs, 0) == hs[1..] && Without(cs, 0) == cs[1..];
      } else {
        TakeOut(hs[1..], cs[1..], right, i - 1);
        assert Without(hs, i) == [hs[0]] + Without(hs[1..], i - 1);
        assert Without(cs, i) == [cs[0]] + Without(cs[1..], i - 1);
      }
    }
  }

  lemma {:induction false} SameSize(hs: seq<Mbuf>, cs: seq<seq<Mbuf>>, right: bool)
    requires Live(hs, cs, right)
    ensures |hs| == |cs|
    decreases |cs|
  {
    hide Packet, Set;
    if cs != [] {
      SameSize(hs[1..], cs[1..], right);
    }
  }

  lemma {:induction false} Relax(hs: seq<Mbuf>, cs: seq<seq<Mbuf>>, right: bool, less: bool)
    requires Live(hs, cs, right) && (less ==> right)
    ensures Live(hs, cs, less)
    decreases |cs|
  {
    hide Packet, Set, Counted;
    if cs != [] {
      Relax(hs[1..], cs[1..], right, less);
    }
  }

  function Back(r: Mbuf?, hs: seq<Mbuf>): seq<Mbuf> {
    if r == null then hs else [r] + hs
  }

  ghost function ChainBack(r: Mbuf?, c: seq<Mbuf>, cs: seq<seq<Mbuf>>): seq<seq<Mbuf>> {
    if r == null then cs else [c] + cs
  }

  lemma PutBack(r: Mbuf?, c: seq<Mbuf>, hs: seq<Mbuf>, cs: seq<seq<Mbuf>>, right: bool)
    requires Packet(r, c) && (right ==> Counted(c)) && Live(hs, cs, right) && Set(c) !! Union(cs)
    ensures Union(ChainBack(r, c, cs)) == Set(c) + Union(cs)
    ensures Live(Back(r, hs), ChainBack(r, c, cs), right)
  {
    hide Sound, Snaps, Counted;
    if r == null {
      assert c == [];
    } else {
      assert ([r] + hs)[1..] == hs && ([c] + cs)[1..] == cs;
    }
  }

  /** The values of the packets. */
  ghost function PacksOf(cs: seq<seq<Mbuf>>): (l: seq<Pack>)
    reads Union(cs)
    ensures |l| == |cs|
    decreases |cs|
  {
    if cs == [] then []
    else
      assert forall i | 0 <= i < |cs[0]| :: cs[0][i] in Set(cs[0]);
      [PackOf(cs[0])] + PacksOf(cs[1..])
  }

  lemma {:induction false} PacksAt(cs: seq<seq<Mbuf>>, i: nat)
    requires i < |cs|
    ensures PacksOf(cs)[i] == PackOf(cs[i]) && PacksOf(Without(cs, i)) == Without(PacksOf(cs), i)
    decreases |cs|
  {
    hide Set, PackOf;
    if i == 0 {
      assert Without(cs, 0) == cs[1..] && PacksOf(cs)[1..] == PacksOf(cs[1..]);
    } else {
      PacksAt(cs[1..], i - 1);
      assert Without(cs, i) == [cs[0]] + Without(cs[1..], i - 1);
      assert Without(cs, i)[1..] == Without(cs[1..], i - 1);
      assert Without(PacksOf(cs), i) == [PackOf(cs[0])] + Without(PacksOf(cs[1..]), i - 1);
    }
  }

  lemma PacksBack(r: Mbuf?, c: seq<Mbuf>, cs: seq<seq<Mbuf>>)
    ensures PacksOf(ChainBack(r, c, cs)) == Packs(r, c) + PacksOf(cs)
  {
    hide Set, PackOf;
    assert ([c] + cs)[1..] == cs;
  }

  lemma PacksBackTwo(r: Mbuf?, c: seq<Mbuf>, r2: Mbuf?, c2: seq<Mbuf>, cs: seq<seq<Mbuf>>)
    ensures PacksOf(ChainBack(r, c, ChainBack(r2, c2, cs))) == Packs(r, c) + Packs(r2, c2) + PacksOf(cs)
  {
    hide PacksOf, Packs, PackOf, ChainBack;
    PacksBack(r2, c2, cs);
    PacksBack(r, c, ChainBack(r2, c2, cs));
  }

  lemma FreeShares(ps: Pools)
    requires World(ps)
    ensures forall q | q in ps :: FreeOf(ps)[q] == |OfPool(FreeBlocks(ps), q)|
  {
    hide World, FreeBlocks, OfPool;
    forall q | q in ps ensures FreeOf(ps)[q] == |OfPool(FreeBlocks(ps), q)| {
      FreeOfPool(ps, q);
    }
  }

  /** Blocks that are nowhere else than before or lost: the balance of each pool. */
  lemma SharesOf(c: seq<Mbuf>, f0: set<Mbuf>, free0: Free, r: Mbuf?, c': seq<Mbuf>, r2: Mbuf?, c2: seq<Mbuf>,
                 lost: set<Mbuf>, q0: Pool, ps: Pools, q: Pool)
    requires (forall i, j | 0 <= i < j < |c| :: c[i] != c[j]) && f0 !! Set(c) && q in ps && q in free0
    requires Outcome(f0 + Set(c), r, c', r2, c2, lost, ps) && free0[q] == |OfPool(f0, q)|
    requires forall m | m in lost :: m.pool == q0
    ensures |q.free| + Uses(PoolsOf(c'), q) + Uses(PoolsOf(c2), q) + (if q == q0 then |lost| else 0)
         == free0[q] + Uses(PoolsOf(c), q)
  {
    hide Set, FreeBlocks, World, PoolsOf, OfPool, Outcome, Packet, Uses;
    OutcomeParts(f0 + Set(c), r, c', r2, c2, lost, ps);
    FreeOfPool(ps, q);
    Apiece(r, c');
    Apiece(r2, c2);
    UsesOf(c, q);
    UsesOf(c', q);
    UsesOf(c2, q);
    OfLost(lost, q0, q);
    PoolOf(f0, Set(c), q);
    PoolOf(FreeBlocks(ps), Set(c'), q);
    PoolOf(FreeBlocks(ps) + Set(c'), Set(c2), q);
    PoolOf(FreeBlocks(ps) + Set(c') + Set(c2), lost, q);
  }

  lemma OfLost(lost: set<Mbuf>, q0: Pool, q: Pool)
    requires forall m | m in lost :: m.pool == q0
    ensures |OfPool(lost, q)| == if q == q0 then |lost| else 0
  {
    assert OfPool(lost, q) == if q == q0 then lost else {};
  }

  lemma Apiece(r: Mbuf?, c: seq<Mbuf>)
    requires Packet(r, c)
    ensures (forall i, j | 0 <= i < j < |c| :: c[i] != c[j]) && (r == null <==> c == [])
  {
    hide Snaps, Sound;
  }

  lemma LoadsOf(r: Mbuf?, c: seq<Mbuf>, r2: Mbuf?, c2: seq<Mbuf>, q: Pool)
    requires (r == null <==> c == []) && (r2 == null <==> c2 == [])
    ensures Load(Packs(r, c) + Packs(r2, c2), q) == Uses(PoolsOf(c), q) + Uses(PoolsOf(c2), q)
  {
    LoadConcat(Packs(r, c), Packs(r2, c2), q);
  }

  lemma BalanceOne(c: seq<Mbuf>, p: Pack, f0: set<Mbuf>, free0: Free, r: Mbuf?, c': seq<Mbuf>, r2: Mbuf?,
                   c2: seq<Mbuf>, lost: set<Mbuf>, q0: Pool, ps: Pools)
    requires (forall i, j | 0 <= i < j < |c| :: c[i] != c[j]) && f0 !! Set(c) && p.pools == PoolsOf(c)
    requires Outcome(f0 + Set(c), r, c', r2, c2, lost, ps) && free0.Keys == ps.Keys
    requires forall q | q in ps :: free0[q] == |OfPool(f0, q)|
    requires forall m | m in lost :: m.pool == q0
    ensures Balanced([p], free0, Packs(r, c') + Packs(r2, c2), FreeOf(ps), {q0}, |lost|)
  {
    hide Set, FreeBlocks, World, PoolsOf, OfPool, Outcome, Packs, PackOf;
    Pieces(r, c', r2, c2, f0 + Set(c), lost, ps);
    forall q | q in ps
      ensures FreeOf(ps)[q] + Load(Packs(r, c') + Packs(r2, c2), q) + (if q in {q0} then |lost| else 0)
           == free0[q] + Load([p], q)
    {
      SharesOf(c, f0, free0, r, c', r2, c2, lost, q0, ps, q);
      LoadsOf(r, c', r2, c2, q);
      assert [p][1..] == [];
    }
  }

  lemma BalanceTwo(c: seq<Mbuf>, d: seq<Mbuf>, p: Pack, p2: Pack, f0: set<Mbuf>, free0: Free, r: Mbuf?,
                   c': seq<Mbuf>, r2: Mbuf?, c2: seq<Mbuf>, ps: Pools)
    requires (forall i, j | 0 <= i < j < |c| :: c[i] != c[j]) && (forall i, j | 0 <= i < j < |d| :: d[i] != d[j])
    requires Set(c) !! Set(d) && f0 !! Set(c) + Set(d) && p.pools == PoolsOf(c) && p2.pools == PoolsOf(d)
    requires Outcome(f0 + Set(c) + Set(d), r, c', r2, c2, {}, ps) && free0.Keys == ps.Keys
    requires forall q | q in ps :: free0[q] == |OfPool(f0, q)|
    ensures Balanced([p, p2], free0, Packs(r, c') + Packs(r2, c2), FreeOf(ps), {}, 0)
  {
    hide FreeBlocks, World, PoolsOf, OfPool, Outcome, Packs, PackOf, Set, Uses, Load;
    Pieces(r, c', r2, c2, f0 + Set(c) + Set(d), {}, ps);
    TwoInOne(c, d);
    assert f0 + Set(c + d) == f0 + Set(c) + Set(d);
    PoolsConcat(c, d);
    forall q | q in ps
      ensures FreeOf(ps)[q] + Load(Packs(r, c') + Packs(r2, c2), q) + (if q in {} then 0 else 0)
           == free0[q] + Load([p, p2], q)
    {
      SharesOf(c + d, f0, free0, r, c', r2, c2, {}, q, ps, q);
      LoadsOf(r, c', r2, c2, q);
      UsesConcat(PoolsOf(c), PoolsOf(d), q);
      LoadTwo(p, p2, q);
    }
  }

  lemma LoadTwo(p: Pack, p2: Pack, q: Pool)
    ensures Load([p, p2], q) == Uses(p.pools, q) + Uses(p2.pools, q)
  {
    LoadConcat([p], [p2], q);
    assert [p] + [p2] == [p, p2];
    assert [p][1..] == [] && [p2][1..] == [];
  }

  lemma TwoInOne(c: seq<Mbuf>, d: seq<Mbuf>)
    requires (forall i, j | 0 <= i < j < |c| :: c[i] != c[j]) && (forall i, j | 0 <= i < j < |d| :: d[i] != d[j])
    requires Set(c) !! Set(d)
    ensures Set(c + d) == Set(c) + Set(d) && forall i, j | 0 <= i < j < |c + d| :: (c + d)[i] != (c + d)[j]
  {
    Apart(c, d);
  }

  lemma BalanceNew(f0: set<Mbuf>, free0: Free, r: Mbuf?, c: seq<Mbuf>, ps: Pools)
    requires Outcome(f0, r, c, null, [], {}, ps) && free0.Keys == ps.Keys
    requires forall q | q in ps :: free0[q] == |OfPool(f0, q)|
    ensures Balanced([], free0, Packs(r, c), FreeOf(ps), {}, 0)
  {
    hide FreeBlocks, World, OfPool, Outcome, Packs, PackOf;
    Pieces(r, c, null, [], f0, {}, ps);
    assert f0 + Set([]) == f0;
    assert Packs(r, c) + Packs(null, []) == Packs(r, c) by {
      NoPacks(r, c);
    }
    forall q | q in ps
      ensures FreeOf(ps)[q] + Load(Packs(r, c), q) + (if q in {} then 0 else 0) == free0[q] + Load([], q)
    {
      SharesOf([], f0, free0, r, c, null, [], {}, q, ps, q);
      LoadsOf(r, c, null, [], q);
    }
  }

  lemma NoPacks(r: Mbuf?, c: seq<Mbuf>)
    ensures Packs(r, c) + Packs(null, []) == Packs(r, c)
  {
  }

  /** Whether a call is safe is a matter of values. */
  lemma SafeSeen(om: Mbuf, c: seq<Mbuf>, call: Call, ps: Pools)
    requires Packet(om, c) && Owned(c, ps)
    ensures Safe(om, c, call) <==> SafeIn(PackOf(c), FreeOf(ps), call)
  {
    hide Packet, Owned, Snaps, Content, PackOf, Pack.Bytes, Bytes, FreeOf, WidenSafe, CopySafe, Places, Space;
    Seen(om, c);
    match call {
      case Widen(off, gap) => SafeWiden(om, c, off, gap);
      case CopyInto(off, data) => SafeCopy(om, c, off, |data|, ps);
      case _ =>
    }
  }

  lemma SafeWiden(om: Mbuf, c: seq<Mbuf>, off: nat, gap: nat)
    ensures WidenSafe(om, c, off, gap) <==>
            forall i: nat, sub: nat | Places(Snaps(c), i, sub, off) ::
              GapStays(Snaps(c)[i], sub, gap, om.pool.databufLen)
  {
    hide Snaps, Content, GapStays, Widening.WidenKeeps;
    var s, d := Snaps(c), om.pool.databufLen;
    LocatedSeen(c);
    if WidenSafe(om, c, off, gap) {
      forall i: nat, sub: nat | Places(s, i, sub, off) ensures GapStays(s[i], sub, gap, d) {
        assert Located(c, i, sub, off);
        StaysSeen(om, c, i, sub, gap);
      }
    } else {
      var i: nat, sub: nat :| Located(c, i, sub, off) && !(d > 0 && Widening.WidenKeeps(c[i], sub, gap, d));
      assert Places(s, i, sub, off);
      StaysSeen(om, c, i, sub, gap);
    }
  }

  lemma StaysSeen(om: Mbuf, c: seq<Mbuf>, i: nat, sub: nat, gap: nat)
    requires i < |c|
    ensures GapStays(Snaps(c)[i], sub, gap, om.pool.databufLen) <==>
            om.pool.databufLen > 0 && Widening.WidenKeeps(c[i], sub, gap, om.pool.databufLen)
  {
    hide Snaps;
    SnapsAt(c);
  }

  lemma SafeCopy(om: Mbuf, c: seq<Mbuf>, off: nat, len: nat, ps: Pools)
    requires Packet(om, c) && Owned(c, ps)
    ensures var p := PackOf(c); var n := |p.Bytes()|;
            && p.Has() && |p.pools| == |c|
            && (CopySafe(c, off, len) <==>
                  || off > n || off + len <= n
                  || if |c| == 1 then off == n || off + len < 0x1_0000
                     else off == n && U16(len) <= Space(p, FreeOf(ps), p.pools[|c| - 1]))
  {
    hide Packet, Owned, Snaps, Content, Capacity, PoolsOf, U16, Pack.Bytes, Bytes, Room, Pack.Trail, FreeOf,
         Pack.Header, Mbuf.Header;
    Seen(om, c);
    PoolsOk(c, ps, c[|c| - 1].pool);
    RoomIs(c, c[|c| - 1].pool);
    CapacityIs(c[|c| - 1].pool);
  }

  lemma LocatedSeen(c: seq<Mbuf>)
    ensures forall i: nat, sub: nat, off: nat :: Located(c, i, sub, off) <==> Places(Snaps(c), i, sub, off)
  {
    hide Snaps, Content;
    SnapsAt(c);
  }

  lemma CapacityIs(q: Pool)
    ensures Capacity(|q.free|, q.databufLen) == |q.free| * q.databufLen
  {
  }

  lemma Pieces(r: Mbuf?, c: seq<Mbuf>, r2: Mbuf?, c2: seq<Mbuf>, stock: set<Mbuf>, lost: set<Mbuf>, ps: Pools)
    requires Outcome(stock, r, c, r2, c2, lost, ps)
    ensures (r == null <==> c == []) && (r2 == null <==> c2 == [])
  {
    hide Snaps, Sound, World, FreeBlocks;
  }

  /** The steps that may lose blocks, and those that may also make a header wrong. */
  predicate MayLose(s: Step) {
    s.One? && s.call.Widen? && !s.guarded
  }

  predicate MayMiscount(s: Step) {
    s.One? && (s.call.Widen? || s.call.CopyInto?) && !s.guarded
  }

  /** The pools with the records they have now. */
  ghost function Records(ps: Pools): Pools
    reads ps.Keys
  {
    map q | q in ps :: q.seen
  }

  /** The records of earlier are the start of those of now. */
  ghost predicate Continued(was: Pools, now: Pools) {
    was.Keys == now.Keys && forall q | q in was :: was[q] <= now[q]
  }

  lemma ContinuedTwice(a: Pools, b: Pools, c: Pools)
    requires Continued(a, b) && Continued(b, c)
    ensures Continued(a, c)
  {
  }

  /** What holds of the pools holds with their records of now in place of earlier ones. */
  lemma FromNow(ps: Pools)
    requires World(ps)
    ensures World(Records(ps)) && FreeBlocks(Records(ps)) == FreeBlocks(ps) && Continued(ps, Records(ps))
    ensures Records(ps).Keys == ps.Keys && Continued(Records(ps), Records(ps))
  {
    hide Pool.Ok;
  }

  /** Every low-water mark is a count on record, and later marks are not above it. */
  lemma MarksOnRecord(ps: Pools)
    requires World(ps)
    ensures forall q | q in ps :: q.minFree in Records(ps)[q] && Records(ps)[q] == q.seen
  {
  }

  lemma MarksBelow(ps: Pools, was: Pools, marks: map<Pool, nat>)
    requires World(ps) && Continued(was, Records(ps)) && was.Keys == ps.Keys == marks.Keys
    requires forall q | q in ps :: marks[q] in was[q]
    ensures forall q | q in ps :: was[q] <= q.seen && q.minFree <= marks[q]
  {
    forall q | q in ps ensures was[q] <= q.seen && q.minFree <= marks[q] {
      var i :| 0 <= i < |was[q]| && was[q][i] == marks[q];
      assert Records(ps)[q] == q.seen && q.seen[i] == marks[q];
    }
  }

  lemma OwnedNow(c: seq<Mbuf>, ps: Pools)
    requires Owned(c, ps)
    ensures Owned(c, Records(ps))
  {
    hide World, FreeBlocks;
    FromNow(ps);
  }

  /** What a call leaves behind, told of the records at the call, holds of earlier records too. */
  lemma SinceThen(stock: set<Mbuf>, r: Mbuf?, c: seq<Mbuf>, r2: Mbuf?, c2: seq<Mbuf>, gone: set<Mbuf>, ps: Pools,
                  now: Pools)
    requires Outcome(stock, r, c, r2, c2, gone, now) && Continued(ps, now)
    ensures Outcome(stock, r, c, r2, c2, gone, ps) && Continued(now, Records(ps))
  {
    hide Packet, Set, Pool.Ok;
    assert FreeBlocks(now) == FreeBlocks(ps);
  }

  /** A call on one packet, with the records of free counts continued. */
  method CallOne(om: Mbuf, ghost c: seq<Mbuf>, call: Call, ghost ps: Pools)
    returns (r: Mbuf?, ghost c': seq<Mbuf>, r2: Mbuf?, ghost c2: seq<Mbuf>, ghost lost: set<Mbuf>, ghost m: nat)
    requires Packet(om, c) && Owned(c, ps)
    requires call.SplitFrag? ==> call.pool in ps && call.userLen < 0x100
    modifies c, ps.Keys, FreeBlocks(ps)
    ensures Outcome(old(FreeBlocks(ps)) + Set(c), r, c', r2, c2, lost, ps)
    ensures old(Safe(om, c, call)) ==> lost == {} && (old(Counted(c)) ==> Counted(c') && Counted(c2))
    ensures lost != {} ==> call.Widen?
    ensures Continued(old(Records(ps)), Records(ps))
    ensures Effect(call, old(PackOf(c)), old(FreeOf(ps)), Packs(r, c') + Packs(r2, c2), m)
    ensures Balanced([old(PackOf(c))], old(FreeOf(ps)), Packs(r, c') + Packs(r2, c2), FreeOf(ps), {om.pool}, m)
  {
    hide Packet, Owned, Set, FreeBlocks, World, Outcome, Safe, Counted, Continued, Records, Effect, Balanced, PackOf,
         OfPool, PoolsOf;
    OwnedApart(c, ps);
    FromNow(ps);
    OwnedNow(c, ps);
    Apiece(om, c);
    FreeShares(ps);
    PoolsSeen(c);
    ghost var stock, now, p, f0, free0 := FreeBlocks(ps) + Set(c), Records(ps), PackOf(c), FreeBlocks(ps), FreeOf(ps);
    SameFree(ps);
    r, c', r2, c2, lost := Apply(om, c, call, now);
    SinceThen(stock, r, c', r2, c2, lost, ps, now);
    BalanceOne(c, p, f0, free0, r, c', r2, c2, lost, om.pool, ps);
    m := |lost|;
  }

  lemma SameFree(ps: Pools)
    ensures FreeOf(Records(ps)) == FreeOf(ps)
  {
  }

  lemma PoolsHead(om: Mbuf, c: seq<Mbuf>)
    requires Packet(om, c)
    ensures PackOf(c).pools != [] && PackOf(c).pools[0] == om.pool
  {
    hide Packet, PackOf;
    Seen(om, c);
  }

  lemma PoolsSeen(c: seq<Mbuf>)
    ensures PackOf(c).pools == PoolsOf(c) && PackOf(c).bufs == Snaps(c)
  {
  }

  /** A call on two packets. */
  method CallTwo(om: Mbuf, ghost c: seq<Mbuf>, om2: Mbuf, ghost c2: seq<Mbuf>, call: PairCall, ghost ps: Pools)
    returns (r: Mbuf?, ghost c': seq<Mbuf>, r2: Mbuf?, ghost c2': seq<Mbuf>)
    requires Packet(om, c) && Owned(c, ps) && Packet(om2, c2) && Owned(c2, ps) && Set(c) !! Set(c2)
    modifies c, c2, ps.Keys, FreeBlocks(ps)
    ensures Outcome(old(FreeBlocks(ps)) + Set(c) + Set(c2), r, c', r2, c2', {}, ps)
    ensures old(Counted(c)) && old(Counted(c2)) ==> Counted(c') && Counted(c2')
    ensures Continued(old(Records(ps)), Records(ps))
    ensures PairEffect(call, old(PackOf(c)), old(PackOf(c2)), old(FreeOf(ps)), Packs(r, c') + Packs(r2, c2'))
    ensures Balanced([old(PackOf(c)), old(PackOf(c2))], old(FreeOf(ps)), Packs(r, c') + Packs(r2, c2'), FreeOf(ps), {},
                     0)
  {
    hide Packet, Owned, Set, FreeBlocks, World, Outcome, Counted, Continued, Records, PairEffect, Balanced, PackOf,
         OfPool, PoolsOf;
    OwnedApart(c, ps);
    OwnedApart(c2, ps);
    FromNow(ps);
    OwnedNow(c, ps);
    OwnedNow(c2, ps);
    Apiece(om, c);
    Apiece(om2, c2);
    FreeShares(ps);
    PoolsSeen(c);
    PoolsSeen(c2);
    ghost var stock, now := FreeBlocks(ps) + Set(c) + Set(c2), Records(ps);
    ghost var p, p2, f0, free0 := PackOf(c), PackOf(c2), FreeBlocks(ps), FreeOf(ps);
    SameFree(ps);
    r, c', r2, c2' := ApplyTwo(om, c, om2, c2, call, now);
    SinceThen(stock, r, c', r2, c2', {}, ps, now);
    BalanceTwo(c, c2, p, p2, f0, free0, r, c', r2, c2', ps);
  }

  lemma FreshIs(out: seq<Pack>, others: seq<Pack>)
    ensures Fresh(out + others, |others|) == out
  {
  }

  lemma MovedOne(a: State, i: nat, guarded: bool, call: Call, out: seq<Pack>, lost: nat, b: State)
    requires i < |a.packs| && a.packs[i].pools != [] && (guarded ==> SafeIn(a.packs[i], a.free, call))
    requires b.packs == out + Without(a.packs, i) && Effect(call, a.packs[i], a.free, out, lost)
    requires Balanced([a.packs[i]], a.free, out, b.free, {a.packs[i].pools[0]}, lost)
    ensures Moves(Step.One(i, guarded, call), a, b)
  {
    hide Effect, Balanced, SafeIn;
    FreshIs(out, Without(a.packs, i));
    assert MovesOne(a, i, call, lost, b);
  }

  lemma GuardedMoves(a: State, i: nat, guarded: bool, call: Call, b: State)
    requires i < |a.packs| && Moves(Step.One(i, false, call), a, b) && (guarded ==> SafeIn(a.packs[i], a.free, call))
    ensures Moves(Step.One(i, guarded, call), a, b)
  {
    hide MovesOne, SafeIn;
  }

  lemma StaysPut(a: State, i: nat, guarded: bool, call: Call)
    requires i >= |a.packs| || (guarded && !SafeIn(a.packs[i], a.free, call))
    ensures Moves(Step.One(i, guarded, call), a, a)
  {
    hide MovesOne, SafeIn;
  }

  lemma MovedTwo(a: State, i: nat, j: nat, call: PairCall, out: seq<Pack>, b: State)
    requires i < |a.packs| && j < |a.packs| - 1 && b.packs == out + Without(Without(a.packs, i), j)
    requires PairEffect(call, a.packs[i], Without(a.packs, i)[j], a.free, out)
    requires Balanced([a.packs[i], Without(a.packs, i)[j]], a.free, out, b.free, {}, 0)
    ensures Moves(Step.Two(i, j, call), a, b)
  {
    hide PairEffect, Balanced;
    FreshIs(out, Without(Without(a.packs, i), j));
  }

  lemma MovedNew(a: State, pool: Pool, header: bool, n: nat, out: seq<Pack>, b: State)
    requires b.packs == out + a.packs && NewEffect(pool, header, n, a.free, out)
    requires Balanced([], a.free, out, b.free, {}, 0)
    ensures Moves(if header then Step.NewPacket(pool, n) else Step.New(pool, n), a, b)
  {
    hide NewEffect, Balanced;
    FreshIs(out, a.packs);
  }

  /** Everything that calls on buffers act on: the pools, the packets in use, and the blocks lost for good. */
  class System {
    /** The pools, each with its record of free counts when the system was set up. */
    ghost const pools: Pools
    ghost const blocks: set<Mbuf>
    var live: seq<Mbuf>
    ghost var chains: seq<seq<Mbuf>>
    ghost var lost: set<Mbuf>
    /** Whether every packet header is known to state its packet's length. */
    ghost var right: bool

    /** Every block is on its pool's free list once, in one packet once, or lost. */
    ghost predicate Valid()
      reads this, pools.Keys, blocks
    {
      && World(pools) && (forall b | b in blocks :: b.pool in pools)
      && Union(chains) <= blocks && Live(live, chains, right)
      && FreeBlocks(pools) !! Union(chains) && lost !! FreeBlocks(pools) + Union(chains)
      && FreeBlocks(pools) + Union(chains) + lost == blocks
    }

    /** The values of the packets in use, and the free counts. */
    ghost function View(): State
      reads this, pools.Keys, Union(chains)
    {
      State(PacksOf(chains), FreeOf(pools))
    }

    /** At the start all blocks are free. */
    constructor (ghost qs: set<Pool>)
      requires forall q | q in qs :: q.Ok()
      ensures Valid() && pools.Keys == qs && Records(pools) == pools && blocks == FreeBlocks(pools)
      ensures live == [] && lost == {} && right
    {
      pools := map q | q in qs :: q.seen;
      blocks := FreeBlocks(map q | q in qs :: q.seen);
      live, chains, lost, right := [], [], {}, true;
      new;
      FreeHere(pools);
    }

    /** What a call on the packet c, with the packets cs left alone, makes of the whole system. */
    method Settle(r: Mbuf?, ghost c: seq<Mbuf>, r2: Mbuf?, ghost c2: seq<Mbuf>, hs: seq<Mbuf>, ghost cs: seq<seq<Mbuf>>,
                  ghost gone: set<Mbuf>, ghost stock: set<Mbuf>, ghost safe: bool)
      requires Outcome(stock, r, c, r2, c2, gone, pools) && Live(hs, cs, right)
      requires right && safe ==> Counted(c) && Counted(c2)
      requires stock !! Union(cs) && lost !! stock + Union(cs) && stock + Union(cs) + lost == blocks
      requires forall b | b in blocks :: b.pool in pools
      modifies this
      ensures Valid() && lost == old(lost) + gone && right == (old(right) && safe)
      ensures Records(pools) == old(Records(pools))
      ensures chains == ChainBack(r, c, ChainBack(r2, c2, cs))
    {
      hide Packet, Owned, Set, FreeBlocks, World, Live, Union, Counted, Outcome, Back, ChainBack;
      OutcomeParts(stock, r, c, r2, c2, gone, pools);
      Relax(hs, cs, right, right && safe);
      right := right && safe;
      PutBack(r2, c2, hs, cs, right);
      PutBack(r, c, Back(r2, hs), ChainBack(r2, c2, cs), right);
      live := Back(r, Back(r2, hs));
      chains := ChainBack(r, c, ChainBack(r2, c2, cs));
      lost := lost + gone;
    }

    /** A call on the i-th packet. */
    method Make(i: nat, call: Call)
      requires Valid() && i < |live| && (call.SplitFrag? ==> call.pool in pools && call.userLen < 0x100)
      modifies this, pools.Keys, blocks
      ensures Valid() && Continued(old(Records(pools)), Records(pools)) && |old(live)| == |old(chains)|
      ensures old(Safe(live[i], chains[i], call)) ==> lost == old(lost) && right == old(right)
      ensures old(lost) <= lost && (right ==> old(right)) && (lost != old(lost) ==> call.Widen?)
      ensures Moves(Step.One(i, false, call), old(View()), View())
    {
      hide Packet, Owned, Set, FreeBlocks, World, Live, Union, Outcome, Safe, Counted, Continued, Records, PacksOf,
           FreeOf, PackOf, Packs, Effect, Balanced, ChainBack, Moves;
      Sizes();
      Taken(i);
      PacksAt(chains, i);
      var om, hs := live[i], Without(live, i);
      ghost var c, cs, stock := chains[i], Without(chains, i), FreeBlocks(pools) + Set(chains[i]);
      ghost var safe, before := Safe(om, c, call), View();
      PoolsHead(om, c);
      var r, r2;
      ghost var c', c2, gone, m;
      r, c', r2, c2, gone, m := CallOne(om, c, call, pools);
      Settle(r, c', r2, c2, hs, cs, gone, stock, safe);
      PacksBackTwo(r, c', r2, c2, cs);
      MovedOne(before, i, false, call, Packs(r, c') + Packs(r2, c2), m, View());
    }

    /** A call on the i-th packet; a guarded one is left out if it is not safe. */
    method DoOne(i: nat, guarded: bool, call: Call) returns (ghost safe: bool)
      requires Valid() && (call.SplitFrag? ==> call.pool in pools && call.userLen < 0x100)
      modifies this, pools.Keys, blocks
      ensures Valid() && Continued(old(Records(pools)), Records(pools))
      ensures |old(live)| == |old(chains)|
      ensures safe <==> guarded || i >= |old(live)| || old(Safe(live[i], chains[i], call))
      ensures !call.Widen? && !call.CopyInto? ==> safe
      ensures safe ==> lost == old(lost) && right == old(right)
      ensures old(lost) <= lost && (right ==> old(right)) && (lost != old(lost) ==> call.Widen?)
      ensures Moves(Step.One(i, guarded, call), old(View()), View())
    {
      hide Packet, Owned, Set, FreeBlocks, World, Live, Union, Safe, Counted, Continued, Records, PacksOf, FreeOf,
           PackOf, SafeIn, Moves;
      safe := true;
      Sizes();
      FromNow(pools);
      if i < |live| {
        Taken(i);
        PacksAt(chains, i);
        var om := live[i];
        ghost var c := chains[i];
        MostlySafe(om, c, call);
        ghost var before := View();
        safe := guarded || Safe(om, c, call);
        var go := true;
        if guarded {
          go := CheckSafe(om, c, call, pools);
        }
        assert View() == before;
        SafeSeen(om, c, call, pools);
        PacksAt(chains, i);
        if go {
          Make(i, call);
          GuardedMoves(before, i, guarded, call, View());
        } else {
          StaysPut(before, i, guarded, call);
        }
      } else {
        StaysPut(View(), i, guarded, call);
      }
    }

    lemma Sizes()
      requires Valid()
      ensures |live| == |chains| && World(pools)
    {
      SameSize(live, chains, right);
    }

    /** A call on the i-th packet and the j-th of the others. */
    method MakeTwo(i: nat, j: nat, call: PairCall)
      requires Valid() && i < |live| && j < |live| - 1
      modifies this, pools.Keys, blocks
      ensures Valid() && lost == old(lost) && right == old(right) && Continued(old(Records(pools)), Records(pools))
      ensures Moves(Step.Two(i, j, call), old(View()), View())
    {
      hide Packet, Owned, Set, FreeBlocks, World, Live, Union, Outcome, Counted, Continued, Records, PacksOf, FreeOf,
           PackOf, Packs, PairEffect, Balanced, ChainBack, Moves, Pool.Ok;
      Sizes();
      Taken(i);
      PacksAt(chains, i);
      var om, hs := live[i], Without(live, i);
      ghost var c, cs := chains[i], Without(chains, i);
      TakenAgain(hs, cs, c, j);
      PacksAt(cs, j);
      var om2, hs2 := hs[j], Without(hs, j);
      ghost var c2, cs2, before := cs[j], Without(cs, j), View();
      ghost var stock := FreeBlocks(pools) + Set(c) + Set(c2);
      var r, r2;
      ghost var c', c2';
      r, c', r2, c2' := CallTwo(om, c, om2, c2, call, pools);
      Settle(r, c', r2, c2', hs2, cs2, {}, stock, true);
      PacksBackTwo(r, c', r2, c2', cs2);
      MovedTwo(before, i, j, call, Packs(r, c') + Packs(r2, c2'), View());
    }

    /** A call on two packets: j counts the packets other than the i-th. */
    method DoTwo(i: nat, j: nat, call: PairCall)
      requires Valid()
      modifies this, pools.Keys, blocks
      ensures Valid() && lost == old(lost) && right == old(right) && Continued(old(Records(pools)), Records(pools))
      ensures Moves(Step.Two(i, j, call), old(View()), View())
    {
      hide World, Live, Union, FreeBlocks, Continued, Records, MovesTwo, PacksOf, FreeOf;
      Sizes();
      FromNow(pools);
      if i < |live| && j < |live| - 1 {
        MakeTwo(i, j, call);
      }
    }

    /** os_mbuf_get and os_mbuf_get_pkthdr */
    method DoNew(pool: Pool, header: bool, n: nat)
      requires Valid() && pool in pools && (header ==> n < 0x100)
      modifies this, pools.Keys, blocks
      ensures Valid() && lost == old(lost) && right == old(right) && Continued(old(Records(pools)), Records(pools))
      ensures Moves(if header then Step.NewPacket(pool, n) else Step.New(pool, n), old(View()), View())
    {
      hide Packet, Owned, Set, FreeBlocks, World, Live, Union, Outcome, Counted, Continued, PacksOf, FreeOf, PackOf,
           Packs, NewEffect, Balanced, ChainBack, Moves, Back, OfPool;
      Sizes();
      FreeShares(pools);
      SameFree(pools);
      ghost var before, f0, free0 := View(), FreeBlocks(pools), FreeOf(pools);
      FromNow(pools);
      ghost var stock, now := FreeBlocks(pools), Records(pools);
      var hs := live;
      ghost var cs := chains;
      EmptyChain(pools);
      FreeLists([], pools);
      var r;
      ghost var c;
      r, c := ApplyNew(pool, header, n, now);
      SinceThen(stock, r, c, null, [], {}, pools, now);
      NoneCounted();
      Settle(r, c, null, [], hs, cs, {}, stock, true);
      PacksBackTwo(r, c, null, [], cs);
      BalanceNew(f0, free0, r, c, pools);
      NoPacks(r, c);
      MovedNew(before, pool, header, n, Packs(r, c), View());
    }

    lemma TakenAgain(hs: seq<Mbuf>, cs: seq<seq<Mbuf>>, c: seq<Mbuf>, j: nat)
      requires Valid() && Live(hs, cs, right) && Union(cs) <= blocks && Union(cs) !! FreeBlocks(pools) && j < |hs|
      ensures |hs| == |cs| && Packet(hs[j], cs[j]) && (right ==> Counted(cs[j])) && Owned(cs[j], pools)
          && Live(Without(hs, j), Without(cs, j), right)
      ensures Union(cs) == Set(cs[j]) + Union(Without(cs, j)) && Set(cs[j]) !! Union(Without(cs, j))
          && Set(cs[j]) <= blocks
      ensures forall b | b in cs[j] :: b in Set(cs[j])
    {
      hide Packet, FreeBlocks, World, Live, Union, Counted;
      TakeOut(hs, cs, right, j);
      forall k | 0 <= k < |cs[j]| ensures cs[j][k].pool in pools {
        assert cs[j][k] in Set(cs[j]);
      }
    }

    /** The pools a step names are pools of this system; a user header length is a uint8_t. */
    ghost predicate StepOk(s: Step) {
      match s
      case New(pool, _) => pool in pools
      case NewPacket(pool, n) => pool in pools && n < 0x100
      case One(_, _, call) => call.SplitFrag? ==> call.pool in pools && call.userLen < 0x100
      case Two(_, _, _) => true
    }

    /** Any run of calls moves the packets and free counts, step by step, as Moves says; trace lists the states. It
        keeps every block accounted for, and the records of free counts only grow. As long as every call is safe
        (`safe`; it is if the calls that may not be are guarded), no block is lost and no header is made wrong; blocks
        are lost by os_mbuf_widen only. */
    method Run(steps: seq<Step>) returns (ghost safe: bool, ghost trace: seq<State>)
      requires Valid() && forall i | 0 <= i < |steps| :: StepOk(steps[i])
      modifies this, pools.Keys, blocks
      ensures Valid() && old(lost) <= lost && Continued(old(Records(pools)), Records(pools))
      ensures safe ==> lost == old(lost) && right == old(right)
      ensures (forall i | 0 <= i < |steps| :: !MayMiscount(steps[i])) ==> safe
      ensures (forall i | 0 <= i < |steps| :: !MayLose(steps[i])) ==> lost == old(lost)
      ensures forall q | q in pools :: old(q.seen) <= q.seen && q.minFree <= old(q.minFree)
      ensures |trace| == |steps| + 1 && trace[0] == old(View()) && trace[|steps|] == View()
      ensures forall k | 0 <= k < |steps| :: Moves(steps[k], trace[k], trace[k + 1])
    {
      hide Valid, Continued, Records, Safe, Pool.Ok, Moves, System.View;
      trace := [View()];
      safe := true;
      ghost var start, marks := Records(pools), map q | q in pools :: q.minFree;
      Sizes();
      FromNow(pools);
      MarksOnRecord(pools);
      var n := 0;
      while n < |steps|
        invariant n <= |steps| && Valid() && old(lost) <= lost && Continued(start, Records(pools))
        invariant safe ==> lost == old(lost) && right == old(right)
        invariant (forall i | 0 <= i < n :: !MayMiscount(steps[i])) ==> safe
        invariant (forall i | 0 <= i < n :: !MayLose(steps[i])) ==> lost == old(lost)
        invariant |trace| == n + 1 && trace[0] == old(View()) && trace[n] == View()
        invariant forall k | 0 <= k < n :: Moves(steps[k], trace[k], trace[k + 1])
      {
        assert StepOk(steps[n]);
        ghost var now := Records(pools);
        match steps[n] {
          case New(pool, leading) => DoNew(pool, false, leading);
          case NewPacket(pool, userLen) => DoNew(pool, true, userLen);
          case One(i, guarded, call) =>
            ghost var ok := DoOne(i, guarded, call);
            safe := safe && ok;
          case Two(i, j, call) => DoTwo(i, j, call);
        }
        ContinuedTwice(start, now, Records(pools));
        trace := trace + [View()];
        n := n + 1;
      }
      Sizes();
      MarksBelow(pools, start, marks);
    }

    lemma Taken(i: nat)
      requires Valid() && i < |live|
      ensures |live| == |chains| && Packet(live[i], chains[i]) && (right ==> Counted(chains[i]))
          && Owned(chains[i], pools) && Live(Without(live, i), Without(chains, i), right)
      ensures var stock, rest := FreeBlocks(pools) + Set(chains[i]), Union(Without(chains, i));
              && stock !! rest && lost !! stock + rest && stock + rest + lost == blocks
              && Set(chains[i]) <= blocks && FreeBlocks(pools) <= blocks
      ensures forall b | b in chains[i] :: b in Set(chains[i])
    {
      hide Packet, FreeBlocks, World, Live, Union, Counted;
      TakeOut(live, chains, right, i);
      forall k | 0 <= k < |chains[i]| ensures chains[i][k].pool in pools {
        assert chains[i][k] in Set(chains[i]);
      }
    }
  }

  /** A system over one pool of n buffers with d bytes each; its record of free counts starts with n. */
  method SetUp(d: nat, n: nat) returns (s: System)
    requires 0 < d < 0x1_0000 && n < 0x1_0000
    ensures fresh(s) && s.Valid() && |s.blocks| == n && s.live == [] && s.lost == {} && s.right
    ensures |s.pools| == 1 && forall q | q in s.pools :: fresh(q) && q.databufLen == d && s.pools[q] == [n]
  {
    hide World, FreeBlocks, Live, Union;
    var pool := new Pool(d, n);
    s := new System({pool});
    Single(s, pool);
  }

  lemma Single(s: System, pool: Pool)
    requires s.Valid() && s.pools.Keys == {pool} && s.blocks == FreeBlocks(s.pools)
    ensures |s.blocks| == |pool.free| && |s.pools| == 1
  {
    hide Live, Union;
    FreeOfPool(s.pools, pool);
    assert FreeBlocks(s.pools) == Set(pool.free);
    assert |s.pools| == |s.pools.Keys|;
  }

  /** b is the k-th buffer of the j-th packet. */
  ghost predicate HasAt(cs: seq<seq<Mbuf>>, j: int, k: int, b: Mbuf) {
    0 <= j < |cs| && 0 <= k < |cs[j]| && cs[j][k] == b
  }

  /** Every block has one place: on its pool's free list once, in one packet once, or lost. */
  lemma OnePlace(s: System, b: Mbuf)
    requires s.Valid() && b in s.blocks
    ensures b in b.pool.free || b in s.lost || exists j, k :: HasAt(s.chains, j, k, b)
    ensures b in b.pool.free ==> b !in s.lost && !exists j, k :: HasAt(s.chains, j, k, b)
    ensures forall j, k, m, n | HasAt(s.chains, j, k, b) && HasAt(s.chains, m, n, b) :: j == m && k == n && b !in s.lost
    ensures forall i, j | 0 <= i < j < |b.pool.free| :: b.pool.free[i] != b.pool.free[j]
  {
    hide Live, Union;
    FreeAt(s.pools, b);
    UnionHas(s.chains, b);
    forall j, k, m, n | HasAt(s.chains, j, k, b) && HasAt(s.chains, m, n, b) ensures j == m && k == n {
      InOnePacket(s.live, s.chains, s.right, j, k, m, n);
    }
  }

  lemma {:induction false} UnionHas(cs: seq<seq<Mbuf>>, b: Mbuf)
    ensures b in Union(cs) <==> exists j, k :: HasAt(cs, j, k, b)
  {
    if cs != [] {
      var r := cs[1..];
      UnionHas(r, b);
      if b in Set(cs[0]) {
        var k :| 0 <= k < |cs[0]| && cs[0][k] == b;
        assert HasAt(cs, 0, k, b);
      } else if b in Union(r) {
        var j, k :| HasAt(r, j, k, b);
        assert HasAt(cs, j + 1, k, b);
      }
      if j, k :| HasAt(cs, j, k, b) {
        if j > 0 {
          assert HasAt(r, j - 1, k, b);
        }
      }
    }
  }

  lemma {:induction false} InOnePacket(hs: seq<Mbuf>, cs: seq<seq<Mbuf>>, right: bool, j: nat, k: nat, m: nat, n: nat)
    requires Live(hs, cs, right) && j < |cs| && m < |cs| && k < |cs[j]| && n < |cs[m]| && cs[j][k] == cs[m][n]
    ensures j == m && k == n
    decreases |cs|
  {
    hide Snaps, Sound;
    var r := cs[1..];
    if j > 0 && m > 0 {
      InOnePacket(hs[1..], r, right, j - 1, k, m - 1, n);
    } else if j > 0 {
      assert HasAt(r, j - 1, k, cs[m][n]);
      UnionHas(r, cs[j][k]);
    } else if m > 0 {
      assert HasAt(r, m - 1, n, cs[j][k]);
      UnionHas(r, cs[j][k]);
    }
  }

  /** The free counter is the length of the free list, never exceeds the number of blocks, and with the blocks in use
      and the lost ones makes up that number; the low-water mark is the least of the counts the pool had when the
      system was set up and of all since. */
  lemma Accounts(s: System, q: Pool)
    requires s.Valid() && q in s.pools
    ensures q.numFree == |q.free| == |OfPool(FreeBlocks(s.pools), q)|
    ensures |OfPool(s.blocks, q)| == q.numFree + |OfPool(Union(s.chains), q)| + |OfPool(s.lost, q)|
    ensures s.pools[q] <= q.seen && q.seen[|q.seen| - 1] == q.numFree
    ensures q.minFree in q.seen && forall i | 0 <= i < |q.seen| :: q.minFree <= q.seen[i]
  {
    hide Live, Union, FreeBlocks;
    FreeOfPool(s.pools, q);
    var f, u, l := OfPool(FreeBlocks(s.pools), q), OfPool(Union(s.chains), q), OfPool(s.lost, q);
    assert OfPool(s.blocks, q) == f + u + l;
    assert |f + u + l| == |f + u| + |l|;
  }

  /** As long as every call was a safe one, every packet header states its packet's length. */
  lemma HeadersRight(s: System, j: nat)
    requires s.Valid() && s.right && j < |s.live|
    ensures |s.live| == |s.chains| && Packet(s.live[j], s.chains[j])
    ensures s.live[j].IsPkthdr() ==> s.live[j].pktLen == U16(|Bytes(s.chains[j])|)
  {
    hide Live, Union;
    TakeOut(s.live, s.chains, true, j);
  }

  lemma FreeHere(ps: Pools)
    requires World(ps)
    ensures forall b | b in FreeBlocks(ps) :: b.pool in ps
  {
    hide Pool.LowWater;
  }

  lemma OutcomeParts(stock: set<Mbuf>, r: Mbuf?, c: seq<Mbuf>, r2: Mbuf?, c2: seq<Mbuf>, gone: set<Mbuf>, ps: Pools)
    requires Outcome(stock, r, c, r2, c2, gone, ps)
    ensures Packet(r, c) && Packet(r2, c2) && World(ps) && Set(c) !! Set(c2) && Set(c) !! FreeBlocks(ps)
        && Set(c2) !! FreeBlocks(ps)
    ensures gone !! Set(c) + Set(c2) + FreeBlocks(ps) && FreeBlocks(ps) + Set(c) + Set(c2) + gone == stock
  {
    hide Packet, World, FreeBlocks, Set;
  }
}
