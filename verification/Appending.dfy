// os_mbuf_append: flat data onto the end of a chain.
module Appending {
  import opened ByteSeqs
  import opened Bufs
  import opened Mbufs

  const OS_ENOMEM: int := 1

  /** The capacity of n buffers of d bytes each. */
  function Capacity(n: nat, d: nat): nat {
    n * d
  }

  /** Exactly k buffers of d bytes each are needed for n bytes. */
  predicate Needed(k: nat, n: int, d: nat) {
    if k == 0 then n <= 0 else Capacity(k - 1, d) < n <= Capacity(k, d)
  }

  lemma NeededNone(n: int, d: nat)
    requires n <= 0
    ensures Needed(0, n, d) && Capacity(0, d) == 0
  {
  }

  /** k buffers for n bytes leave room for some of the next m; j more are needed for the rest of them. */
  lemma NeededBoth(k: nat, n: int, j: nat, m: nat, d: nat)
    requires Needed(k, n, d) && Needed(j, m - (Capacity(k, d) - n), d)
    ensures Needed(k + j, n + m, d)
  {
    CapacitySum(k, j, d);
    if j > 0 {
      CapacitySum(k, j - 1, d);
    }
  }

  lemma CapacitySum(a: nat, b: nat, d: nat)
    ensures Capacity(a + b, d) == Capacity(a, d) + Capacity(b, d)
  {
  }

  lemma CapacityStep(n: nat, d: nat)
    ensures Capacity(n + 1, d) == Capacity(n, d) + d && Capacity(0, d) == 0
  {
  }

  lemma CapacityGrows(k: nat, n: nat, d: nat)
    requires k <= n
    ensures Capacity(k, d) <= Capacity(n, d)
  {
    assert n * d - k * d == (n - k) * d;
  }

  /** How many bytes still fit behind a chain: in its last buffer and in the free buffers of q. */
  ghost function Room(c: seq<Mbuf>, q: Pool): int
    requires c != []
    reads c`off, c`len, q
  {
    c[|c| - 1].TrailingSpace() + Capacity(|q.free|, q.databufLen)
  }

  lemma RoomIs(c: seq<Mbuf>, q: Pool)
    requires c != []
    ensures Room(c, q) == c[|c| - 1].TrailingSpace() + Capacity(|q.free|, q.databufLen)
  {
  }

  lemma NoRoom(c: seq<Mbuf>, q: Pool)
    requires c != [] && c[|c| - 1].TrailingSpace() == 0
    ensures q.free == [] ==> Room(c, q) == 0
  {
  }

  /** A new last buffer uses up the data's worth of room. */
  lemma RoomNext(c: seq<Mbuf>, m: Mbuf, q: Pool, room: int, f: seq<Mbuf>, n: nat)
    requires f != [] && q.free == f[1..] && room == Capacity(|f|, q.databufLen) && m.TrailingSpace() == q.databufLen - n
    ensures Room(c + [m], q) == room - n
  {
    CapacityStep(|f| - 1, q.databufLen);
  }

  /** Scrolls to the last buffer in the chain. */
  method Last(om: Mbuf, ghost c: seq<Mbuf>) returns (last: Mbuf)
    requires Linked(om, c)
    ensures c != [] && last == c[|c| - 1]
  {
    hide Linked;
    ghost var i := 0;
    last := om;
    NextAt(om, c, 0);
    while last.next != null
      invariant i < |c| && last == c[i]
      decreases |c| - i
    {
      NextAt(om, c, i);
      last := last.next;
      i := i + 1;
    }
    NextAt(om, c, i);
  }

  /** The first half of os_mbuf_append: data goes into the last buffer as far as it has room. */
  method FillLast(om: Mbuf, ghost c: seq<Mbuf>, data: seq<byte>) returns (last: Mbuf, space: nat)
    requires Packet(om, c)
    modifies c
    ensures Packet(om, c) && c != [] && last == c[|c| - 1] && space == Min(|data|, old(last.TrailingSpace()))
    ensures Bytes(c) == old(Bytes(c)) + data[0..space]
    ensures 0 <= last.TrailingSpace() == old(last.TrailingSpace()) - space
    ensures last.Snap().Data() == old(last.Snap().Data()) + data[0..space]
    ensures last.off == old(last.off) && om.pktLen == old(om.pktLen) && om.pkthdrLen == old(om.pkthdrLen)
        && om.Header() == old(om.Header())
  {
    hide Linked, Snaps, Content, Sound, Buf.Data, Splice, Buf.Ok;
    ghost var i := |c| - 1;
    ghost var s := Snaps(c);
    last := Last(om, c);
    SnapsAt(c);
    SoundAt(s, i);
    space := last.TrailingSpace();
    if space > 0 {
      if space > |data| {
        space := |data|;
      }
      last.Fill(data[0..space]);
      Others(om, c, i);
      SnapsUpdate(c, s, i);
      SoundUpdate(s, i, last.Snap());
      ContentLast(s, last.Snap(), data[0..space]);
    }
  }

  /** One more buffer, filled and linked behind the chain. */
  method AddBuffer(ghost om: Mbuf, ghost c: seq<Mbuf>, last: Mbuf, omp: Pool, data: seq<byte>, ghost ps: Pools)
    returns (m: Mbuf?)
    requires Packet(om, c) && c != [] && last == c[|c| - 1] && Owned(c, ps) && omp in ps
    requires |data| <= omp.databufLen
    modifies omp, omp.free, last`next
    ensures World(ps) && (m == null <==> old(omp.free) == [])
    ensures m == null ==> omp.free == old(omp.free) && FreeBlocks(ps) == old(FreeBlocks(ps)) && Packet(om, c)
    ensures m != null ==> m == old(omp.free)[0] && omp.free == old(omp.free)[1..]
    ensures m != null ==> m.TrailingSpace() == omp.databufLen - |data|
    ensures m != null && old(last.TrailingSpace()) == 0 ==> Room(c + [m], omp) == old(Room(c, omp)) - |data|
    ensures m != null ==> Packet(om, c + [m]) && Owned(c + [m], ps)
    ensures m != null ==> FreeBlocks(ps) + Set(c + [m]) == old(FreeBlocks(ps)) + Set(c)
    ensures m == null ==> Bytes(c) == old(Bytes(c)) && Owned(c, ps) && Room(c, omp) == old(Room(c, omp))
    ensures m != null ==> Bytes(c + [m]) == old(Bytes(c)) + data
  {
    hide Linked, Snaps, Content, Sound, World, FreeBlocks, Capacity, Pool.Ok, At;
    ghost var s := Snaps(c);
    OwnedAt(c, ps, omp);
    m := Get(omp, 0, ps);
    if m != null {
      OwnedSnoc(c, m, ps, old(FreeBlocks(ps)));
      m.Fill(data);
      LinkLast(om, c, last, m);
      assert Snaps(c) == s;
      SnapsSnoc(c, m);
      SoundSnoc(s, m.Snap());
      ContentOne(m.Snap());
      ContentConcat(s, [m.Snap()]);
      if old(last.TrailingSpace()) == 0 {
        RoomNext(c, m, omp, old(Room(c, omp)), old(omp.free), |data|);
      }
    }
  }

  /** With buffers of one size, what the last buffer has left and how many buffers were taken determine each other. */
  lemma LastHas(c': seq<Mbuf>, q: Pool, f: nat, ts: nat, k: nat, n: nat)
    requires c' != [] && k <= f && |q.free| == f - k && Room(c', q) == ts + Capacity(f, q.databufLen) - n
    requires c'[|c'| - 1].TrailingSpace() >= 0
    ensures Needed(0, 0, q.databufLen)
    ensures Needed(k, n - ts, q.databufLen) <==> k > 0 ==> c'[|c'| - 1].TrailingSpace() < q.databufLen
    ensures k == 0 ==> c'[|c'| - 1].TrailingSpace() == ts - n
  {
    var d := q.databufLen;
    assert f * d == k * d + (f - k) * d;
    if k > 0 {
      assert k * d == (k - 1) * d + d;
    }
  }

  lemma LastLeft(c': seq<Mbuf>, q: Pool, f: nat, ts: int, k: nat, n: nat)
    requires c' != [] && k <= f && |q.free| == f - k && Room(c', q) == ts + Capacity(f, q.databufLen) - n
    ensures c'[|c'| - 1].TrailingSpace() == Capacity(k, q.databufLen) - (n - ts)
  {
    CapacitySum(k, f - k, q.databufLen);
  }

  /** One turn of the loop of os_mbuf_append: the k-th free buffer takes what it can hold of the data from pos on. */
  method AddNext(om: Mbuf, ghost c: seq<Mbuf>, ghost F: seq<Mbuf>, ghost k: nat, last: Mbuf, omp: Pool,
                 data: seq<byte>, ghost start: nat, pos: nat, ghost ps: Pools)
    returns (m: Mbuf?, take: nat)
    requires c != [] && k <= |F| && omp.free == F[k..] && start <= pos < |data| && omp in ps
    requires Packet(om, c + F[..k]) && Owned(c + F[..k], ps) && last == (c + F[..k])[|c| + k - 1]
    requires last.TrailingSpace() == 0
    modifies omp, omp.free, last`next
    ensures m == null <==> k == |F|
    ensures m == null ==> omp.free == old(omp.free) && Room(c + F[..k], omp) == old(Room(c + F[..k], omp)) == 0
    ensures m == null ==>
        && Packet(om, c + F[..k]) && Owned(c + F[..k], ps) && FreeBlocks(ps) == old(FreeBlocks(ps))
        && Bytes(c + F[..k]) == old(Bytes(c + F[..k]))
    ensures m != null ==>
        && m == F[k] && omp.free == F[k + 1..] && take == Min(omp.databufLen, |data| - pos) > 0
        && m.TrailingSpace() == omp.databufLen - take
        && Packet(om, c + F[..k + 1]) && Owned(c + F[..k + 1], ps)
        && FreeBlocks(ps) + Set(c + F[..k + 1]) == old(FreeBlocks(ps)) + Set(c + F[..k])
        && Room(c + F[..k + 1], omp) == old(Room(c + F[..k], omp)) - take
        && Bytes(c + F[..k + 1]) == old(Bytes(c + F[..k])) + data[pos..pos + take]
  {
    hide Packet, Bytes, Owned, Set, World, FreeBlocks, Capacity, Room, Mbuf.TrailingSpace;
    ghost var d := c + F[..k];
    PoolsOk(d, ps, omp);
    take := Min(omp.databufLen, |data| - pos);
    NoRoom(d, omp);
    m := AddBuffer(om, d, last, omp, data[pos..pos + take], ps);
    if m != null {
      TakeNext(c, F, k);
    }
  }

  /** The second half of os_mbuf_append: data from `start` on goes into new buffers. */
  method AddBuffers(om: Mbuf, ghost c: seq<Mbuf>, last: Mbuf, omp: Pool, data: seq<byte>, start: nat, ghost ps: Pools)
    returns (pos: nat, ghost c': seq<Mbuf>, ghost k: nat)
    requires Packet(om, c) && c != [] && last == c[|c| - 1] && Owned(c, ps) && omp in ps
    requires start <= |data| && last.TrailingSpace() >= 0 && (start < |data| ==> last.TrailingSpace() == 0)
    modifies omp, omp.free, last`next
    ensures k <= |old(omp.free)| && c' == c + old(omp.free)[..k] && omp.free == old(omp.free)[k..]
    ensures Packet(om, c') && Owned(c', ps)
    ensures FreeBlocks(ps) + Set(c') == old(FreeBlocks(ps)) + Set(c)
    ensures pos == Min(|data|, start + old(Room(c, omp))) && (k == 0 <==> pos == start)
    ensures Needed(k, pos - start, omp.databufLen)
    ensures Room(c', omp) == old(Room(c, omp)) - (pos - start)
    ensures Bytes(c') == old(Bytes(c)) + data[start..pos]
  {
    hide Packet, Bytes, Owned, Set, World, FreeBlocks, Capacity, Room, Mbuf.TrailingSpace, Needed;
    ghost var F := omp.free;
    ghost var room := Room(c, omp);
    ghost var bytes := Bytes(c);
    ghost var ts := last.TrailingSpace();
    RoomIs(c, omp);
    var tail := last;
    pos := start;
    k := 0;
    assert c + F[..0] == c;
    while pos < |data|
      invariant k <= |F| && omp.free == F[k..] && tail == (c + F[..k])[|c| + k - 1]
      invariant Packet(om, c + F[..k]) && Owned(c + F[..k], ps)
      invariant FreeBlocks(ps) + Set(c + F[..k]) == old(FreeBlocks(ps)) + Set(c)
      invariant start <= pos <= |data| && (k == 0 <==> pos == start)
      invariant (pos < |data| ==> tail.TrailingSpace() == 0) && Room(c + F[..k], omp) == room - (pos - start)
      invariant tail.TrailingSpace() >= 0 && (k > 0 ==> start < |data| && tail.TrailingSpace() < omp.databufLen)
      invariant Bytes(c + F[..k]) == bytes + data[start..pos]
    {
      EndsOf(c, F, k);
      var m, take := AddNext(om, c, F, k, tail, omp, data, start, pos, ps);
      if m == null {
        break;
      }
      SliceNext(bytes, data, start, pos, pos + take);
      tail := m;
      pos := pos + take;
      k := k + 1;
    }
    c' := c + F[..k];
    RoomNotNegative(om, c', omp);
    LastHas(c', omp, |F|, ts, k, pos - start);
  }

  /** os_mbuf_append up to the packet header: the data itself. */
  method AppendData(om: Mbuf, ghost c: seq<Mbuf>, data: seq<byte>, ghost ps: Pools)
    returns (n: nat, ghost c': seq<Mbuf>, ghost k: nat)
    requires Packet(om, c) && Owned(c, ps)
    modifies om.pool, om.pool.free, c
    ensures c != [] && k <= |old(om.pool.free)| && c' == c + old(om.pool.free)[..k]
        && om.pool.free == old(om.pool.free)[k..]
    ensures Packet(om, c') && Owned(c', ps)
    ensures FreeBlocks(ps) + Set(c') == old(FreeBlocks(ps)) + Set(c)
    ensures n == Min(|data|, old(Room(c, om.pool))) && Room(c', om.pool) == old(Room(c, om.pool)) - n
    ensures k == 0 <==> n <= old(c[|c| - 1].TrailingSpace())
    ensures Needed(k, n - old(c[|c| - 1].TrailingSpace()), om.pool.databufLen)
    ensures Bytes(c') == old(Bytes(c)) + data[0..n]
    ensures om.pktLen == old(om.pktLen) && om.pkthdrLen == old(om.pkthdrLen) && om.Header() == old(om.Header())
    ensures c[|c| - 1].Snap().Data() == old(c[|c| - 1].Snap().Data()) + Prefix(data, old(c[|c| - 1].TrailingSpace()))
  {
    hide Packet, Bytes, Owned, Set, World, FreeBlocks, Capacity, U16, Buf.Data;
    ghost var bytes := Bytes(c);
    HeadAt(om, c);
    PoolsOk(c, ps, om.pool);
    var last, space := FillLast(om, c, data);
    n, c', k := AddBuffers(om, c, last, om.pool, data, space, ps);
    SliceNext(bytes, data, 0, space, n);
  }

  /** os_mbuf_append */
  method Append(om: Mbuf, ghost c: seq<Mbuf>, data: seq<byte>, ghost ps: Pools)
    returns (rc: int, ghost c': seq<Mbuf>, ghost n: nat, ghost k: nat)
    requires Packet(om, c) && Owned(c, ps)
    modifies om.pool, om.pool.free, c
    ensures c != [] && k <= |old(om.pool.free)| && c' == c + old(om.pool.free)[..k]
        && om.pool.free == old(om.pool.free)[k..]
    ensures Packet(om, c') && Owned(c', ps)
    ensures FreeBlocks(ps) + Set(c') == old(FreeBlocks(ps)) + Set(c)
    ensures n == Min(|data|, old(Room(c, om.pool))) && Room(c', om.pool) == old(Room(c, om.pool)) - n
    ensures k == 0 <==> n <= old(c[|c| - 1].TrailingSpace())
    ensures Needed(k, n - old(c[|c| - 1].TrailingSpace()), om.pool.databufLen)
    ensures Bytes(c') == old(Bytes(c)) + data[0..n]
    ensures rc == if n == |data| then 0 else OS_ENOMEM
    ensures om.pktLen == (if om.IsPkthdr() then U16(old(om.pktLen) + n) else old(om.pktLen))
        && om.pkthdrLen == old(om.pkthdrLen)
    ensures om.Header() == old(om.Header())
    ensures c[|c| - 1].Snap().Data() == old(c[|c| - 1].Snap().Data()) + Prefix(data, old(c[|c| - 1].TrailingSpace()))
  {
    hide Packet, Bytes, Owned, Set, World, FreeBlocks, Capacity, U16, Prefix, Needed, Room;
    var end;
    end, c', k := AppendData(om, c, data, ps);
    n := end;
    HeadAt(om, c');
    if om.IsPkthdr() {
      SetPktLen(om, c', U16(om.pktLen + end));
    }
    rc := if end == |data| then 0 else OS_ENOMEM;
  }

  lemma RoomNotNegative(om: Mbuf?, c: seq<Mbuf>, q: Pool)
    requires Packet(om, c) && c != []
    ensures Room(c, q) >= 0 && c[|c| - 1].TrailingSpace() >= 0
  {
    SnapAt(c, |c| - 1);
  }
}
