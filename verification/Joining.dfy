// os_mbuf_concat and os_mbuf_pack_chains: joining two packets.
module Joining {
  import opened ByteSeqs
  import opened Bufs
  import opened Mbufs
  import opened Appending

  lemma LinkedConcat(first: Mbuf, c1: seq<Mbuf>, c2: seq<Mbuf>)
    requires c1 != [] && c2 != [] && first == c1[0] && c1[|c1| - 1].next == c2[0] && Linked(c2[0], c2)
    requires forall j {:trigger c1[j].next} | 0 <= j < |c1| - 1 :: c1[j].next == At(c1, j + 1)
    requires forall j, k | 0 <= j < k < |c1| :: c1[j] != c1[k]
    requires forall j, k | 0 <= j < |c1| && 0 <= k < |c2| :: c1[j] != c2[k]
    ensures Linked(first, c1 + c2)
  {
    var d := c1 + c2;
    forall j | 0 <= j < |d| ensures d[j].next == At(d, j + 1) {
      assert d[j] == if j < |c1| then c1[j] else c2[j - |c1|];
    }
    assert forall j, k | 0 <= j < k < |d| :: d[j] != d[k];
  }

  lemma TwoChains(first: Mbuf, c1: seq<Mbuf>, second: Mbuf, c2: seq<Mbuf>)
    requires Packet(first, c1) && Packet(second, c2) && Set(c1) !! Set(c2)
    ensures c1 != [] && c2 != [] && first == c1[0] && second == c2[0] && second in c2 && first in c1
    ensures forall j {:trigger c1[j].next} | 0 <= j < |c1| - 1 :: c1[j].next == At(c1, j + 1)
    ensures forall j, k | 0 <= j < k < |c1| :: c1[j] != c1[k]
    ensures forall j, k | 0 <= j < |c1| && 0 <= k < |c2| :: c1[j] != c2[k]
    ensures Linked(second, c2) && Linked(first, c1) && Sound(Snaps(c1)) && Sound(Snaps(c2))
    ensures (forall j | 0 <= j < |c1| :: c1[j].Snap() == Snaps(c1)[j])
        && (forall j | 0 <= j < |c2| :: c2[j].Snap() == Snaps(c2)[j])
  {
    hide Snaps, Sound;
    SnapsAt(c1);
    SnapsAt(c2);
    HeadAt(second, c2);
    HeadAt(first, c1);
    forall j, k | 0 <= j < |c1| && 0 <= k < |c2| ensures c1[j] != c2[k] {
      assert c1[j] in Set(c1) && c2[k] in Set(c2);
    }
  }

  /** The summing loop of os_mbuf_concat: the first header's length grows by every buffer of the second chain. */
  method CountIn(first: Mbuf, ghost c1: seq<Mbuf>, second: Mbuf, ghost c2: seq<Mbuf>)
    requires Packet(second, c2) && first !in c2
    modifies first`pktLen
    ensures first.pktLen == U16(old(first.pktLen) + |Bytes(c2)|)
  {
    hide Linked, Snaps, Content, Sound, U16;
    var cur: Mbuf? := second;
    ghost var i := 0;
    SnapsAt(c2);
    ContentNone(Snaps(c2));
    U16Same(first.pktLen);
    FollowAt(second, c2, 0);
    while cur != null
      invariant i <= |c2| && cur == At(c2, i) && Packet(second, c2) && Snaps(c2) == old(Snaps(c2))
      invariant first.pktLen == U16(old(first.pktLen) + |Content(Snaps(c2)[..i])|)
      decreases |c2| - i
    {
      FollowAt(second, c2, i);
      DataLenAt(c2, i);
      U16Add(old(first.pktLen) + |Content(Snaps(c2)[..i])|, cur.len);
      first.pktLen := U16(first.pktLen + cur.len);
      cur := cur.next;
      i := i + 1;
    }
    assert Snaps(c2)[..i] == Snaps(c2);
  }

  lemma DataLenAt(c: seq<Mbuf>, i: nat)
    requires Sound(Snaps(c)) && i < |c|
    ensures |Content(Snaps(c)[..i + 1])| == |Content(Snaps(c)[..i])| + c[i].len
  {
    hide Snaps, Content, Sound, Buf.Data;
    SnapAt(c, i);
    DataLen(Snaps(c), i);
    ContentUpTo(Snaps(c), i);
  }

  /** Clearing the second chain's header makes the two lists one sound list with all the bytes. */
  lemma JoinedList(s: seq<Buf>, t: seq<Buf>, b: Buf)
    requires Sound(s) && Sound(t) && s != [] && t != [] && b == t[0].(pkthdrLen := 0)
    ensures Sound(s + t[0 := b]) && Content(s + t[0 := b]) == Content(s) + Content(t)
  {
    hide Sound, Content;
    SoundAt(t, 0);
    SoundUpdate(t, 0, b);
    SoundConcat(s, t[0 := b]);
    ContentSame(t, 0, b);
    ContentConcat(s, t[0 := b]);
  }

  /** SLIST_NEXT(cur) = second for the last buffer of the first chain, and om_pkthdr_len = 0 in the second. */
  method Attach(first: Mbuf, ghost c1: seq<Mbuf>, cur: Mbuf, second: Mbuf, ghost c2: seq<Mbuf>)
    requires Packet(first, c1) && Packet(second, c2) && Set(c1) !! Set(c2) && c1 != [] && cur == c1[|c1| - 1]
    modifies cur`next, second`pkthdrLen
    ensures second.pkthdrLen == 0 && Packet(first, c1 + c2) && Bytes(c1 + c2) == old(Bytes(c1)) + old(Bytes(c2))
  {
    hide Linked, Snaps, Content, Sound, Set;
    ghost var s, t := Snaps(c1), Snaps(c2);
    TwoChains(first, c1, second, c2);
    cur.next := second;
    LinkedConcat(first, c1, c2);
    second.pkthdrLen := 0;
    Others(second, c2, 0);
    SnapsUpdate(c2, t, 0);
    assert Snaps(c1) == s;
    SnapsConcat(c1, c2);
    JoinedList(s, t, second.Snap());
  }

  /** os_mbuf_concat */
  method Concat(first: Mbuf, ghost c1: seq<Mbuf>, second: Mbuf, ghost c2: seq<Mbuf>)
    requires Packet(first, c1) && Packet(second, c2) && Set(c1) !! Set(c2)
    modifies c1`next, first`pktLen, second`pkthdrLen
    ensures Packet(first, c1 + c2) && Bytes(c1 + c2) == old(Bytes(c1)) + old(Bytes(c2))
    ensures first.pktLen == if !first.IsPkthdr() then old(first.pktLen)
                            else if old(second.IsPkthdr()) then U16(old(first.pktLen) + old(second.pktLen))
                            else U16(old(first.pktLen) + |old(Bytes(c2))|)
    ensures first.pkthdrLen == old(first.pkthdrLen) && first.Header() == old(first.Header()) && second.pkthdrLen == 0
  {
    hide Linked, Snaps, Content, Sound, Set, Packet, Bytes, U16, Mbuf.Header;
    FollowAt(first, c1, 0);
    TwoChains(first, c1, second, c2);
    var cur := Last(first, c1);
    if first.IsPkthdr() {
      if second.IsPkthdr() {
        SetPktLen(first, c1, U16(first.pktLen + second.pktLen));
      } else {
        AddLength(first, c1, second, c2);
      }
    }
    Attach(first, c1, cur, second, c2);
  }

  method AddLength(first: Mbuf, ghost c1: seq<Mbuf>, second: Mbuf, ghost c2: seq<Mbuf>)
    requires Packet(first, c1) && Packet(second, c2) && Set(c1) !! Set(c2)
    modifies first`pktLen
    ensures Packet(first, c1) && Packet(second, c2) && Bytes(c1) == old(Bytes(c1)) && Bytes(c2) == old(Bytes(c2))
    ensures first.pktLen == U16(old(first.pktLen) + |Bytes(c2)|)
  {
    hide Linked, Snaps, Content, Sound, Set;
    ghost var s := Snaps(c1);
    TwoChains(first, c1, second, c2);
    CountIn(first, c1, second, c2);
    Others(first, c1, 0);
    SnapsUpdate(c1, s, 0);
    SoundAt(s, 0);
    SoundUpdate(s, 0, first.Snap());
    ContentPktLen(s, first.pktLen);
  }
}
