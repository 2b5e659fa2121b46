// Reading a chain: locating an offset, copying out and comparing.
module Cursors {
  import opened ByteSeqs
  import opened Bufs
  import opened Mbufs

  const INT_MAX: int := 0x7fff_ffff

  /** The bytes from position o of the i-th buffer to the end of the packet. */
  function Tail(s: seq<Buf>, i: nat, o: nat): seq<byte> {
    if i < |s| && o <= |s[i].Data()| then s[i].Data()[o..] + Content(s[i + 1..]) else []
  }

  /** The bytes from offset `off` of a packet on; none when the packet is shorter. */
  function From(bytes: seq<byte>, off: nat): seq<byte> {
    if off <= |bytes| then bytes[off..] else []
  }

  lemma TailFrom(s: seq<Buf>, i: nat, o: nat)
    requires i < |s| && o <= |s[i].Data()|
    ensures |Content(s[..i])| + o <= |Content(s)|
    ensures Tail(s, i, o) == Content(s)[|Content(s[..i])| + o..]
  {
    hide Content, Buf.Data;
    ContentSplit(s, i);
    ContentFrom(s, i);
  }

  /** At the end of a buffer, reading goes on at the start of the next one. */
  lemma TailNext(s: seq<Buf>, i: nat, o: nat)
    requires i < |s| && o == |s[i].Data()|
    ensures Tail(s, i, o) == Tail(s, i + 1, 0)
  {
    if i + 1 < |s| {
      ContentFrom(s, i + 1);
    }
  }

  /** os_mbuf_off */
  method Off(om: Mbuf?, ghost c: seq<Mbuf>, off: nat) returns (cur: Mbuf?, sub: nat, ghost i: nat)
    requires Packet(om, c)
    ensures cur == null <==> c == [] || off > |Bytes(c)|
    ensures cur != null ==> i < |c| && cur == c[i] && sub <= cur.len && (sub == cur.len ==> i == |c| - 1)
    ensures cur != null ==> off == |Content(Snaps(c)[..i])| + sub
    ensures Tail(Snaps(c), i, sub) == From(Bytes(c), off) && i <= |c| && (cur == null ==> i == |c|)
  {
    hide Linked, Snaps, Content, Sound, Buf.Data, Tail;
    ghost var s := Snaps(c);
    SnapsAt(c);
    NextAt(om, c, 0);
    cur := om;
    sub := off;
    i := 0;
    ContentNone(s);
    while cur != null
      invariant i <= |c| && cur == At(c, i)
      invariant off == |Content(s[..i])| + sub
      invariant i == |c| > 0 ==> sub > 0
      decreases |c| - i
    {
      NextAt(om, c, i);
      DataLen(s, i);
      ContentUpTo(s, i);
      var next := cur.next;
      if cur.len > sub || (cur.len == sub && next == null) {
        TailFrom(s, i, sub);
        return;
      }
      sub := sub - cur.len;
      cur := next;
      i := i + 1;
    }
    assert s[..i] == s;
    TailEnd(s, sub);
  }

  lemma TailEnd(s: seq<Buf>, o: nat)
    ensures Tail(s, |s|, o) == []
  {
  }

  /** memcmp of two blocks of equal size: the difference of the first bytes that differ. */
  function Memcmp(x: seq<byte>, y: seq<byte>): int
    requires |x| == |y|
  {
    if x == [] then 0
    else if x[0] != y[0] then x[0] as int - y[0] as int
    else Memcmp(x[1..], y[1..])
  }

  /** Comparing n bytes of two byte strings that may end early. */
  function Compare(a: seq<byte>, b: seq<byte>, n: nat): int {
    if n == 0 then 0
    else if a == [] || b == [] then INT_MAX
    else if a[0] != b[0] then a[0] as int - b[0] as int
    else Compare(a[1..], b[1..], n - 1)
  }

  /** One memcmp of k bytes stands for the first k steps of the comparison. */
  lemma {:induction false} CompareChunk(a: seq<byte>, b: seq<byte>, n: nat, k: nat)
    requires k <= |a| && k <= |b| && k <= n
    ensures Compare(a, b, n) ==
            if Memcmp(a[..k], b[..k]) != 0 then Memcmp(a[..k], b[..k]) else Compare(a[k..], b[k..], n - k)
  {
    if k > 0 {
      assert a[..k][1..] == a[1..][..k - 1] && b[..k][1..] == b[1..][..k - 1];
      assert a[1..][k - 1..] == a[k..] && b[1..][k - 1..] == b[k..];
      CompareChunk(a[1..], b[1..], n - 1, k - 1);
    }
  }

  /** The comparison says 0 exactly for equal ranges that both exist. */
  lemma {:induction false} CompareZero(a: seq<byte>, b: seq<byte>, n: nat)
    ensures Compare(a, b, n) == 0 <==> n <= |a| && n <= |b| && a[..n] == b[..n]
  {
    if n > 0 && a != [] && b != [] {
      CompareZero(a[1..], b[1..], n - 1);
      if n <= |a| && n <= |b| {
        assert a[..n] == [a[0]] + a[1..][..n - 1] && a[..n][1..] == a[1..][..n - 1];
        assert b[..n] == [b[0]] + b[1..][..n - 1] && b[..n][1..] == b[1..][..n - 1];
      }
    }
  }

  /** Any other answer is decided by the first position where the ranges differ or one of them ends. */
  lemma {:induction false} CompareFirst(a: seq<byte>, b: seq<byte>, n: nat) returns (k: nat)
    requires Compare(a, b, n) != 0
    ensures k < n && k <= |a| && k <= |b| && a[..k] == b[..k]
    ensures Compare(a, b, n) == INT_MAX <==> k == |a| || k == |b|
    ensures k < |a| && k < |b| ==> a[k] != b[k] && Compare(a, b, n) == a[k] as int - b[k] as int
  {
    if a == [] || b == [] || a[0] != b[0] {
      k := 0;
    } else {
      var x, y := a[1..], b[1..];
      assert Compare(a, b, n) == Compare(x, y, n - 1);
      var j := CompareFirst(x, y, n - 1);
      k := j + 1;
      assert a[..k] == [a[0]] + x[..j];
      assert b[..k] == [b[0]] + y[..j];
      if j < |x| && j < |y| {
        assert a[k] == x[j] && b[k] == y[j];
      }
    }
  }

  /** Cutting the second string to the compared length changes nothing. */
  lemma {:induction false} CompareCut(a: seq<byte>, b: seq<byte>, n: nat)
    requires n <= |b|
    ensures Compare(a, b[..n], n) == Compare(a, b, n)
  {
    if n > 0 && a != [] {
      assert b[..n][1..] == b[1..][..n - 1];
      CompareCut(a[1..], b[1..], n - 1);
    }
  }

  /** memcpy into a flat buffer */
  method Memcpy(dst: array<byte>, at: nat, x: seq<byte>)
    requires at + |x| <= dst.Length
    modifies dst
    ensures dst[..] == Splice(old(dst[..]), at, x)
  {
    forall k | 0 <= k < |x| {
      dst[at + k] := x[k];
    }
    var d := Splice(old(dst[..]), at, x);
    assert forall k | 0 <= k < dst.Length :: dst[k] == d[k];
  }

  lemma TailTake(s: seq<Buf>, i: nat, o: nat, k: nat)
    requires i < |s| && o + k <= |s[i].Data()|
    ensures k <= |Tail(s, i, o)| && Tail(s, i, o)[..k] == s[i].Data()[o..o + k]
        && Tail(s, i, o)[k..] == Tail(s, i, o + k)
  {
    hide Content, Buf.Data;
  }

  /** Copying k more bytes out of the i-th buffer. */
  lemma CopyStep(s: seq<Buf>, i: nat, o: nat, k: nat, a: seq<byte>, d: seq<byte>, pos: nat, x: seq<byte>)
    requires i < |s| && o + k <= |s[i].Data()| && x == s[i].Data()[o..o + k]
    requires pos <= |a| && a[pos..] == Tail(s, i, o) && pos + k <= |d|
    ensures pos + k <= |a| && a[pos + k..] == Tail(s, i, o + k)
    ensures o + k == |s[i].Data()| ==> a[pos + k..] == Tail(s, i + 1, 0)
    ensures Splice(a[..pos] + d[pos..], pos, x) == a[..pos + k] + d[pos + k..]
  {
    hide Content, Buf.Data, Tail;
    TailTake(s, i, o, k);
    if o + k == |s[i].Data()| {
      TailNext(s, i, o + k);
    }
    assert a[pos + k..] == a[pos..][k..];
    assert a[..pos + k] == a[..pos] + x by {
      assert x == a[pos..][..k];
    }
    assert (a[..pos] + d[pos..])[pos + k..] == d[pos + k..];
  }

  /** d with its first bytes replaced by those of a: n of them, or all of a when it is shorter. */
  function Overwritten(d: seq<byte>, a: seq<byte>, n: nat): (r: seq<byte>)
    requires n <= |d|
    ensures |r| == |d|
  {
    if n <= |a| then a[..n] + d[n..] else a + d[|a|..]
  }

  lemma OverwrittenNot(d: seq<byte>, a: seq<byte>)
    ensures Overwritten(d, a, 0) == d
  {
  }

  lemma OverwrittenAll(d: seq<byte>, a: seq<byte>, n: nat, len: nat)
    requires n <= len <= |d| && (n < len ==> n == |a|)
    ensures Overwritten(d, a, len) == Overwritten(d, a, n)
  {
  }

  /** The second loop of os_mbuf_copydata, from a position in the chain. */
  method CopyLoop(ghost om: Mbuf?, ghost c: seq<Mbuf>, start: Mbuf?, ghost i0: nat, sub: nat, len: nat,
                  dst: array<byte>)
    returns (rc: int)
    requires Packet(om, c) && i0 <= |c| && start == At(c, i0) && (start != null ==> sub <= start.len)
    requires len <= dst.Length
    modifies dst
    ensures var a := Tail(Snaps(c), i0, sub);
            && rc == (if len <= |a| then 0 else -1)
            && dst[..] == Overwritten(old(dst[..]), a, len)
  {
    hide Linked, Snaps, Content, Sound, Buf.Data, Tail, Splice, Overwritten;
    ghost var s := Snaps(c);
    ghost var a := Tail(s, i0, sub);
    ghost var d := dst[..];
    OverwrittenNot(d, a);
    var m, o := start, sub;
    ghost var i: nat := i0;
    var pos: nat := 0;
    while pos < len && m != null
      invariant Packet(om, c) && Snaps(c) == s && i <= |c| && m == At(c, i)
      invariant 0 <= o && (m != null ==> o <= m.len)
      invariant pos <= len && pos <= |a| && (pos < len ==> a[pos..] == Tail(s, i, o))
      invariant dst[..] == Overwritten(d, a, pos)
      decreases |c| - i
    {
      var count := Min(m.len - o, len - pos);
      CopyOut(om, c, i, o, count, a, d, pos);
      Memcpy(dst, pos, m.Snap().Data()[o..o + count]);
      pos := pos + count;
      m, o, i := m.next, 0, i + 1;
    }
    if m == null {
      TailEnd(s, o);
    }
    OverwrittenAll(d, a, pos, len);
    rc := if len > pos then -1 else 0;
  }

  lemma CopyOut(om: Mbuf?, c: seq<Mbuf>, i: nat, o: nat, k: nat, a: seq<byte>, d: seq<byte>, pos: nat)
    requires Packet(om, c) && i < |c| && o + k <= c[i].len
    requires pos <= |a| && a[pos..] == Tail(Snaps(c), i, o) && pos + k <= |d|
    ensures |c[i].Snap().Data()| == c[i].len && c[i].next == At(c, i + 1)
    ensures pos + k <= |a| && (o + k == c[i].len ==> a[pos + k..] == Tail(Snaps(c), i + 1, 0))
    ensures Splice(Overwritten(d, a, pos), pos, c[i].Snap().Data()[o..o + k]) == Overwritten(d, a, pos + k)
  {
    hide Linked, Snaps, Content, Sound, Buf.Data, Tail, Splice;
    NextAt(om, c, i);
    SnapAt(c, i);
    DataLen(Snaps(c), i);
    CopyStep(Snaps(c), i, o, k, a, d, pos, c[i].Snap().Data()[o..o + k]);
  }

  /** os_mbuf_copydata */
  method CopyData(om: Mbuf?, ghost c: seq<Mbuf>, off: nat, len: int, dst: array<byte>) returns (rc: int)
    requires Packet(om, c) && len <= dst.Length
    modifies dst
    ensures rc == if len == 0 || off + Max(len, 0) <= |Bytes(c)| then 0 else -1
    ensures dst[..] == Overwritten(old(dst[..]), From(Bytes(c), off), Max(len, 0))
  {
    hide Packet, Bytes, Snaps, Content, Tail, Overwritten;
    if len == 0 {
      OverwrittenNot(dst[..], From(Bytes(c), off));
      return 0;
    }
    var m, o, i := Seek(om, c, off);
    if m == null && o > 0 {
      OverwrittenAll(dst[..], [], 0, Max(len, 0));
      OverwrittenNot(dst[..], []);
      return -1;
    }
    rc := CopyLoop(om, c, m, i, o, Max(len, 0), dst);
  }

  /** The first loop of os_mbuf_copydata: skipping whole buffers. */
  method Seek(om: Mbuf?, ghost c: seq<Mbuf>, off: nat) returns (m: Mbuf?, o: nat, ghost i: nat)
    requires Packet(om, c)
    ensures i <= |c| && m == At(c, i) && (m != null ==> o <= m.len)
    ensures Tail(Snaps(c), i, o) == From(Bytes(c), off)
    ensures m == null && o > 0 <==> off > |Bytes(c)|
  {
    hide Linked, Snaps, Content, Sound, Buf.Data, Tail;
    ghost var s := Snaps(c);
    SnapsAt(c);
    NextAt(om, c, 0);
    ContentNone(s);
    m, o, i := om, off, 0;
    while o > 0
      invariant i <= |c| && m == At(c, i)
      invariant off == |Content(s[..i])| + o
      decreases |c| - i
    {
      if m == null {
        assert s[..i] == s;
        TailEnd(s, o);
        return;
      }
      NextAt(om, c, i);
      DataLen(s, i);
      ContentUpTo(s, i);
      if o < m.len {
        break;
      }
      o := o - m.len;
      m := m.next;
      i := i + 1;
    }
    if m != null {
      DataLen(s, i);
      TailFrom(s, i, o);
    } else {
      assert s[..i] == s;
      TailEnd(s, o);
    }
  }

  /** Comparing k bytes of the i-th buffer against the front of b. */
  lemma CompareStep(s: seq<Buf>, i: nat, o: nat, b: seq<byte>, n: nat, k: nat, x: seq<byte>, y: seq<byte>)
    requires i < |s| && o + k <= |s[i].Data()| && k <= n && k <= |b|
    requires x == s[i].Data()[o..o + k] && y == b[..k]
    ensures Compare(Tail(s, i, o), b, n) ==
            if Memcmp(x, y) != 0 then Memcmp(x, y) else Compare(Tail(s, i, o + k), b[k..], n - k)
  {
    hide *;
    TailTake(s, i, o, k);
    CompareChunk(Tail(s, i, o), b, n, k);
  }

  /** os_mbuf_cmpf; the position in the flat data is a uint16_t, so at least one side must be shorter than
      65536 bytes. */
  method Cmpf(om: Mbuf?, ghost c: seq<Mbuf>, off: nat, data: seq<byte>) returns (rc: int)
    requires Packet(om, c) && (|data| < 0x1_0000 || |From(Bytes(c), off)| < 0x1_0000)
    ensures rc == Compare(From(Bytes(c), off), data, |data|)
  {
    hide Linked, Snaps, Content, Sound, Buf.Data, Tail, Compare, Memcmp, From, U16;
    ghost var s := Snaps(c);
    SnapsAt(c);
    if data == [] {
      CompareNone([], []);
      CompareNone(From(Bytes(c), off), data);
      return 0;
    }
    ghost var total := |From(Bytes(c), off)|;
    var cur, omOff, i := Off(om, c, off);
    var dataOff: uint16 := 0;
    while true
      invariant i <= |c| && cur == At(c, i) && 0 <= omOff && (cur != null ==> omOff <= cur.len)
      invariant 0 <= dataOff < |data| && dataOff + |Tail(s, i, omOff)| == total
      invariant Compare(From(Bytes(c), off), data, |data|)
             == Compare(Tail(s, i, omOff), data[dataOff..], |data| - dataOff)
      decreases |c| - i
    {
      if cur == null {
        TailEnd(s, omOff);
        CompareNone(data[dataOff..], data[dataOff..]);
        return INT_MAX;
      }
      NextAt(om, c, i);
      DataLen(s, i);
      var chunk := Min(cur.len - omOff, |data| - dataOff);
      var x, y := cur.Snap().Data()[omOff..omOff + chunk], data[dataOff..dataOff + chunk];
      assert y == data[dataOff..][..chunk] && data[dataOff..][chunk..] == data[dataOff + chunk..];
      CompareStep(s, i, omOff, data[dataOff..], |data| - dataOff, chunk, x, y);
      if chunk > 0 {
        rc := Memcmp(x, y);
        if rc != 0 {
          return;
        }
      } else {
        MemcmpNone(x, y);
      }
      TailTake(s, i, omOff, chunk);
      U16Same(dataOff + chunk);
      dataOff := U16(dataOff + chunk);
      if dataOff == |data| {
        CompareNone(Tail(s, i, omOff + chunk), []);
        return 0;
      }
      TailNext(s, i, omOff + chunk);
      cur := cur.next;
      omOff := 0;
      i := i + 1;
    }
  }

  lemma CompareNone(a: seq<byte>, b: seq<byte>)
    ensures Compare(a, b, 0) == 0 && (|b| > 0 ==> Compare([], b, |b|) == INT_MAX)
  {
  }

  lemma MemcmpNone(x: seq<byte>, y: seq<byte>)
    requires x == y == []
    ensures Memcmp(x, y) == 0
  {
  }

  /** Comparing k bytes of one buffer of each chain. */
  lemma CompareStep2(s: seq<Buf>, i: nat, o: nat, t: seq<Buf>, j: nat, p: nat, n: nat, k: nat, x: seq<byte>,
                     y: seq<byte>)
    requires i < |s| && o + k <= |s[i].Data()| && x == s[i].Data()[o..o + k] && k <= n
    requires j < |t| && p + k <= |t[j].Data()| && y == t[j].Data()[p..p + k]
    ensures Compare(Tail(s, i, o), Tail(t, j, p), n) ==
            if Memcmp(x, y) != 0 then Memcmp(x, y) else Compare(Tail(s, i, o + k), Tail(t, j, p + k), n - k)
  {
    hide *;
    TailTake(t, j, p, k);
    CompareStep(s, i, o, Tail(t, j, p), n, k, x, y);
  }

  lemma CompareEnd(a: seq<byte>, b: seq<byte>, n: nat)
    ensures n == 0 ==> Compare(a, b, n) == 0
    ensures n > 0 && (a == [] || b == []) ==> Compare(a, b, n) == INT_MAX
  {
  }

  /** Going on to the next buffer keeps the bytes still to be read. */
  lemma Advance(om: Mbuf?, c: seq<Mbuf>, i: nat, o: nat)
    requires Packet(om, c) && i < |c| && o == c[i].len
    ensures c[i].next == At(c, i + 1) && Tail(Snaps(c), i, o) == Tail(Snaps(c), i + 1, 0)
  {
    hide Linked, Snaps, Content, Sound, Buf.Data, Tail;
    NextAt(om, c, i);
    SnapAt(c, i);
    DataLen(Snaps(c), i);
    TailNext(Snaps(c), i, o);
  }

  lemma CompareBuffers(c1: seq<Mbuf>, i: nat, o: nat, c2: seq<Mbuf>, j: nat, p: nat, n: nat, k: nat)
    requires Sound(Snaps(c1)) && i < |c1| && o + k <= c1[i].len
    requires Sound(Snaps(c2)) && j < |c2| && p + k <= c2[j].len
    requires k <= n
    ensures |c1[i].Snap().Data()| == c1[i].len && |c2[j].Snap().Data()| == c2[j].len
    ensures var rc := Memcmp(c1[i].Snap().Data()[o..o + k], c2[j].Snap().Data()[p..p + k]);
            Compare(Tail(Snaps(c1), i, o), Tail(Snaps(c2), j, p), n) ==
            if rc != 0 then rc else Compare(Tail(Snaps(c1), i, o + k), Tail(Snaps(c2), j, p + k), n - k)
  {
    hide Snaps, Sound, Buf.Data, Tail, Compare, Memcmp;
    SnapAt(c1, i);
    SnapAt(c2, j);
    DataLen(Snaps(c1), i);
    DataLen(Snaps(c2), j);
    CompareStep2(Snaps(c1), i, o, Snaps(c2), j, p, n, k, c1[i].Snap().Data()[o..o + k], c2[j].Snap().Data()[p..p + k]);
  }

  /** The comparison loop of os_mbuf_cmpm, from a position in each chain. */
  method CmpmLoop(ghost om1: Mbuf?, ghost c1: seq<Mbuf>, start1: Mbuf?, ghost i1: nat, sub1: nat,
                  ghost om2: Mbuf?, ghost c2: seq<Mbuf>, start2: Mbuf?, ghost i2: nat, sub2: nat, len: nat)
    returns (rc: int)
    requires Packet(om1, c1) && i1 <= |c1| && start1 == At(c1, i1) && (start1 != null ==> sub1 <= start1.len)
    requires Packet(om2, c2) && i2 <= |c2| && start2 == At(c2, i2) && (start2 != null ==> sub2 <= start2.len)
    ensures rc == Compare(Tail(Snaps(c1), i1, sub1), Tail(Snaps(c2), i2, sub2), len)
  {
    hide Linked, Snaps, Content, Sound, Buf.Data, Tail, Compare, Memcmp, Mbuf.Snap;
    ghost var goal := Compare(Tail(Snaps(c1), i1, sub1), Tail(Snaps(c2), i2, sub2), len);
    var cur1, off1 := start1, sub1;
    var cur2, off2 := start2, sub2;
    ghost var i: nat, j: nat := i1, i2;
    var remaining: nat := len;
    while true
      invariant i <= |c1| && cur1 == At(c1, i) && 0 <= off1 && (cur1 != null ==> off1 <= cur1.len)
      invariant j <= |c2| && cur2 == At(c2, j) && 0 <= off2 && (cur2 != null ==> off2 <= cur2.len)
      invariant goal == Compare(Tail(Snaps(c1), i, off1), Tail(Snaps(c2), j, off2), remaining)
      decreases remaining
    {
      if remaining == 0 {
        CompareEnd(Tail(Snaps(c1), i, off1), Tail(Snaps(c2), j, off2), 0);
        return 0;
      }
      while cur1 != null && off1 >= cur1.len
        invariant i <= |c1| && cur1 == At(c1, i) && 0 <= off1 && (cur1 != null ==> off1 <= cur1.len)
        invariant goal == Compare(Tail(Snaps(c1), i, off1), Tail(Snaps(c2), j, off2), remaining)
        decreases |c1| - i
      {
        Advance(om1, c1, i, off1);
        cur1, off1, i := cur1.next, 0, i + 1;
      }
      while cur2 != null && off2 >= cur2.len
        invariant j <= |c2| && cur2 == At(c2, j) && 0 <= off2 && (cur2 != null ==> off2 <= cur2.len)
        invariant goal == Compare(Tail(Snaps(c1), i, off1), Tail(Snaps(c2), j, off2), remaining)
        decreases |c2| - j
      {
        Advance(om2, c2, j, off2);
        cur2, off2, j := cur2.next, 0, j + 1;
      }
      if cur1 == null || cur2 == null {
        CompareStop(Snaps(c1), i, off1, Snaps(c2), j, off2, remaining);
        return INT_MAX;
      }
      var chunk := Min(Min(cur1.len - off1, cur2.len - off2), remaining);
      CompareBuffers(c1, i, off1, c2, j, off2, remaining, chunk);
      rc := Memcmp(cur1.Snap().Data()[off1..off1 + chunk], cur2.Snap().Data()[off2..off2 + chunk]);
      if rc != 0 {
        return;
      }
      off1 := off1 + chunk;
      off2 := off2 + chunk;
      remaining := remaining - chunk;
    }
  }

  /** os_mbuf_cmpm */
  method Cmpm(om1: Mbuf?, ghost c1: seq<Mbuf>, offset1: nat, om2: Mbuf?, ghost c2: seq<Mbuf>, offset2: nat, len: nat)
    returns (rc: int)
    requires Packet(om1, c1) && Packet(om2, c2)
    ensures rc == Compare(From(Bytes(c1), offset1), From(Bytes(c2), offset2), len)
  {
    hide Packet, Snaps, Content, Tail, Compare, From, Bytes;
    var cur1, off1, i := Off(om1, c1, offset1);
    var cur2, off2, j := Off(om2, c2, offset2);
    rc := CmpmLoop(om1, c1, cur1, i, off1, om2, c2, cur2, j, off2, len);
  }

  lemma CompareStop(s: seq<Buf>, i: nat, o: nat, t: seq<Buf>, j: nat, p: nat, n: nat)
    requires n > 0 && (i >= |s| || j >= |t|)
    ensures Compare(Tail(s, i, o), Tail(t, j, p), n) == INT_MAX
  {
  }

  /** Wherever the second range can be copied out, comparing chains is comparing with the copy. */
  lemma CmpmAgreesWithCmpf(b1: seq<byte>, off1: nat, b2: seq<byte>, off2: nat, len: nat)
    requires off2 + len <= |b2|
    ensures Compare(From(b1, off1), From(b2, off2), len) == Compare(From(b1, off1), From(b2, off2)[..len], len)
    ensures Compare(From(b1, off1), From(b2, off2), len) == 0 <==>
            len == 0 || (off1 + len <= |b1| && b1[off1..off1 + len] == b2[off2..off2 + len])
  {
    CompareCut(From(b1, off1), From(b2, off2), len);
    CompareZero(From(b1, off1), From(b2, off2), len);
    assert b2[off2..][..len] == b2[off2..off2 + len];
    if off1 + len <= |b1| {
      assert b1[off1..][..len] == b1[off1..off1 + len];
    }
  }
}
