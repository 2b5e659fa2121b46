// The value of one memory buffer, and the bytes a list of buffers holds.
module Bufs {
  import opened ByteSeqs

  /** sizeof(struct os_mbuf_pkthdr) on a 32-bit target. */
  const PKTHDR_SIZE: nat := 8

  /** What one buffer holds at some moment: everything but its link and its identity. */
  datatype Buf = Buf(cap: nat, databuf: seq<byte>, off: nat, len: nat, pkthdrLen: nat, pktLen: uint16, flags: nat) {

    /** The data lies behind the header and inside the data area. */
    predicate Ok() {
      && |databuf| == cap
      && pkthdrLen <= off && off + len <= cap
      && (pkthdrLen == 0 || PKTHDR_SIZE <= pkthdrLen < 0x100)
    }

    /** The bytes this buffer contributes to its packet. */
    function Data(): seq<byte> {
      if off + len <= |databuf| then databuf[off..off + len] else []
    }
  }

  /** The bytes of a list of buffers, in order. */
  function Content(s: seq<Buf>): seq<byte> {
    if s == [] then [] else s[0].Data() + Content(s[1..])
  }

  lemma {:induction false} ContentConcat(a: seq<Buf>, b: seq<Buf>)
    ensures Content(a + b) == Content(a) + Content(b)
  {
    if a == [] {
      assert a + b == b;
    } else {
      assert (a + b)[1..] == a[1..] + b;
      ContentConcat(a[1..], b);
    }
  }

  lemma ContentOne(b: Buf)
    ensures Content([b]) == b.Data()
  {
    assert Content([b]) == b.Data() + Content([]);
  }

  lemma ContentFrom(s: seq<Buf>, i: nat)
    requires i < |s|
    ensures Content(s[i..]) == s[i].Data() + Content(s[i + 1..])
  {
    assert s[i..][1..] == s[i + 1..];
  }

  lemma ContentUpTo(s: seq<Buf>, i: nat)
    requires i < |s|
    ensures Content(s[..i + 1]) == Content(s[..i]) + s[i].Data()
  {
    hide *;
    ContentOne(s[i]);
    assert s[..i + 1] == s[..i] + [s[i]];
    ContentConcat(s[..i], [s[i]]);
  }

  lemma ContentSplit(s: seq<Buf>, i: nat)
    requires i <= |s|
    ensures Content(s) == Content(s[..i]) + Content(s[i..])
  {
    hide *;
    assert s == s[..i] + s[i..];
    ContentConcat(s[..i], s[i..]);
  }

  /** More data at the end of the last buffer is more data at the end of the packet. */
  lemma ContentLast(s: seq<Buf>, b: Buf, data: seq<byte>)
    requires s != [] && b.Data() == s[|s| - 1].Data() + data
    ensures Content(s[|s| - 1 := b]) == Content(s) + data
  {
    hide *;
    var i := |s| - 1;
    var t := s[i := b];
    ContentUpTo(s, i);
    ContentUpTo(t, i);
    assert s[..i + 1] == s && t[..i + 1] == t && t[..i] == s[..i];
    assert Content(s[..i]) + s[i].Data() + data == Content(s[..i]) + (s[i].Data() + data);
  }

  /** Replacing a buffer by one with the same bytes keeps the packet's bytes. */
  lemma ContentSame(s: seq<Buf>, i: nat, b: Buf)
    requires i < |s| && b.Data() == s[i].Data()
    ensures Content(s[i := b]) == Content(s)
  {
    hide *;
    var t := s[i := b];
    ContentSplit(s, i);
    ContentSplit(t, i);
    ContentFrom(s, i);
    ContentFrom(t, i);
    assert t[..i] == s[..i] && t[i + 1..] == s[i + 1..];
  }

  /** Every buffer is well formed and only the first may carry a packet header. */
  predicate Sound(s: seq<Buf>) {
    && (forall i | 0 <= i < |s| :: s[i].Ok())
    && (forall i | 0 < i < |s| :: s[i].pkthdrLen == 0)
  }

  lemma SoundSnoc(s: seq<Buf>, b: Buf)
    requires s != [] && Sound(s) && b.Ok() && b.pkthdrLen == 0
    ensures Sound(s + [b])
  {
  }

  lemma SoundUpdate(s: seq<Buf>, i: nat, b: Buf)
    requires i < |s| && Sound(s) && b.Ok() && (i > 0 ==> b.pkthdrLen == 0)
    ensures Sound(s[i := b])
  {
  }

  lemma SoundSlice(s: seq<Buf>, i: nat)
    requires Sound(s) && i <= |s|
    ensures Sound(s[..i]) && Sound(s[i..])
  {
  }

  lemma SoundAt(s: seq<Buf>, i: nat)
    requires Sound(s) && i < |s|
    ensures s[i].Ok() && (i > 0 ==> s[i].pkthdrLen == 0)
  {
  }

  lemma ContentNone(s: seq<Buf>)
    ensures Content(s[..0]) == [] && Content(s[|s|..]) == []
  {
  }

  lemma DataLen(s: seq<Buf>, i: nat)
    requires Sound(s) && i < |s|
    ensures |s[i].Data()| == s[i].len
  {
  }

  /** Taking an empty buffer out of a list keeps the bytes. */
  lemma ContentWithout(s: seq<Buf>, k: nat)
    requires k < |s| && s[k].Data() == []
    ensures Content(Without(s, k)) == Content(s)
  {
    hide Content, Buf.Data;
    ContentSplit(s, k);
    ContentFrom(s, k);
    ContentConcat(s[..k], s[k + 1..]);
  }

  lemma SoundWithout(s: seq<Buf>, k: nat)
    requires 0 < k < |s| && Sound(s)
    ensures Sound(Without(s, k))
  {
  }

  lemma SoundCons(b: Buf, s: seq<Buf>)
    requires b.Ok() && Sound(s) && (s != [] ==> s[0].pkthdrLen == 0)
    ensures Sound([b] + s)
  {
  }

  /** Cutting a buffer's data after n bytes: what stays when either part is dropped. */
  lemma DataCut(b: Buf, n: nat)
    requires b.Ok() && n <= b.len
    ensures |b.Data()| == b.len && (n == b.len ==> b.Data()[..n] == b.Data())
    ensures var t := b.(len := n); t.Ok() && t.Data() == b.Data()[..n]
    ensures var t := b.(off := b.off + n, len := b.len - n); t.Ok() && t.Data() == b.Data()[n..]
  {
    var d := b.databuf;
    assert d[b.off..b.off + b.len][..n] == d[b.off..b.off + n];
    assert d[b.off..b.off + b.len][n..] == d[b.off + n..b.off + b.len];
  }

  lemma NoData(b: Buf)
    requires b.len == 0
    ensures b.Data() == []
  {
  }

  lemma SoundConcat(a: seq<Buf>, b: seq<Buf>)
    requires a != [] && Sound(a) && Sound(b) && (b != [] ==> b[0].pkthdrLen == 0)
    ensures Sound(a + b)
  {
  }

  lemma OneOn(s: seq<Buf>, i: nat)
    requires Sound(s) && i < |s|
    ensures |Content(s[..i + 1])| == |Content(s[..i])| + s[i].len
  {
    hide Content, Sound;
    ContentUpTo(s, i);
    DataLen(s, i);
  }

  lemma Rising(s: seq<Buf>, i: nat, j: nat)
    requires i <= j <= |s|
    ensures |Content(s[..i])| <= |Content(s[..j])|
  {
    assert s[..j] == s[..i] + s[i..j];
    ContentConcat(s[..i], s[i..j]);
  }
}
