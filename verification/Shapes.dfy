// Where the data lies in the buffers of a chain, and what cutting bytes off the front makes of it.
module Shapes {
  import opened ByteSeqs
  import opened Bufs
  import opened Mbufs

  /** The place and the length of a buffer's data. */
  datatype Shape = Shape(off: nat, len: nat)

  ghost function Outline(c: seq<Mbuf>): (t: seq<Shape>)
    reads c`off, c`len
    ensures |t| == |c|
  {
    if c == [] then [] else [Shape(c[0].off, c[0].len)] + Outline(c[1..])
  }

  lemma {:induction false} ShapeAt(c: seq<Mbuf>, i: nat)
    requires i < |c|
    ensures Outline(c)[i] == Shape(c[i].off, c[i].len)
  {
    if i > 0 {
      ShapeAt(c[1..], i - 1);
    }
  }

  lemma ShapesAt(c: seq<Mbuf>)
    ensures forall i | 0 <= i < |c| :: Outline(c)[i] == Shape(c[i].off, c[i].len)
  {
    hide *;
    forall i | 0 <= i < |c| ensures Outline(c)[i] == Shape(c[i].off, c[i].len) {
      ShapeAt(c, i);
    }
  }

  /** Changing one buffer changes one entry of t, what the shapes were before. */
  lemma ShapesUpdate(c: seq<Mbuf>, t: seq<Shape>, i: nat)
    requires i < |c| == |t| && forall j | 0 <= j < |c| && j != i :: c[j] != c[i]
    requires forall j | 0 <= j < |c| :: c[j] == c[i] || Shape(c[j].off, c[j].len) == t[j]
    ensures Outline(c) == t[i := Shape(c[i].off, c[i].len)]
  {
    hide Outline;
    ShapesAt(c);
  }

  lemma ShapesSlice(c: seq<Mbuf>, i: nat)
    requires i <= |c|
    ensures Outline(c[i..]) == Outline(c)[i..]
  {
    hide Outline;
    ShapesAt(c);
    ShapesAt(c[i..]);
  }

  lemma ShapesCons(m: Mbuf, c: seq<Mbuf>)
    ensures Outline([m] + c) == [Shape(m.off, m.len)] + Outline(c)
  {
    assert ([m] + c)[1..] == c;
  }

  /** t is what the buffers s look like once n bytes are gone from the front: each loses what reaches into it; the data
      of one that loses all of it stays where it was. */
  ghost predicate FrontGone(t: seq<Shape>, s: seq<Buf>, n: nat) {
    && |t| == |s|
    && forall j | 0 <= j < |s| ::
         var cut := Min(Max(n - |Content(s[..j])|, 0), s[j].len);
         t[j] == Shape(s[j].off + if cut == s[j].len then 0 else cut, s[j].len - cut)
  }

  /** The first i buffers are emptied, the others as they were. */
  ghost predicate GoneUpTo(t: seq<Shape>, s: seq<Buf>, n: nat, i: nat) {
    && i <= |t| == |s| && |Content(s[..i])| <= n && Sound(s)
    && (forall j | 0 <= j < i :: t[j] == Shape(s[j].off, 0))
    && (forall j | i <= j < |s| :: t[j] == Shape(s[j].off, s[j].len))
  }

  lemma NoneGone(om: Mbuf, c: seq<Mbuf>, n: nat)
    requires Packet(om, c)
    ensures GoneUpTo(Outline(c), Snaps(c), n, 0) && (n == 0 ==> FrontGone(Outline(c), Snaps(c), 0))
  {
    hide Snaps, Outline, Content, Linked, Sound;
    SnapsAt(c);
    ShapesAt(c);
    ContentNone(Snaps(c));
  }

  lemma OneGone(t: seq<Shape>, s: seq<Buf>, n: nat, i: nat)
    requires GoneUpTo(t, s, n, i) && i < |s| && |Content(s[..i])| + s[i].len <= n
    ensures GoneUpTo(t[i := Shape(t[i].off, 0)], s, n, i + 1)
    ensures |Content(s[..i])| + s[i].len == n ==> FrontGone(t[i := Shape(t[i].off, 0)], s, n)
  {
    hide Content, Sound;
    OneOn(s, i);
    var t' := t[i := Shape(t[i].off, 0)];
    if |Content(s[..i])| + s[i].len == n {
      AllGone(t', s, n, i + 1);
    }
  }

  /** Nothing is left to be cut off, or no buffer. */
  lemma AllGone(t: seq<Shape>, s: seq<Buf>, n: nat, i: nat)
    requires GoneUpTo(t, s, n, i) && (i == |s| || |Content(s[..i])| == n)
    ensures FrontGone(t, s, n)
  {
    hide Content, Sound;
    forall j | 0 <= j < |s|
      ensures var cut := Min(Max(n - |Content(s[..j])|, 0), s[j].len);
              t[j] == Shape(s[j].off + if cut == s[j].len then 0 else cut, s[j].len - cut)
    {
      if j < i {
        OneOn(s, j);
        Rising(s, j + 1, i);
      } else {
        Rising(s, i, j);
      }
    }
  }

  lemma PartGone(t: seq<Shape>, s: seq<Buf>, n: nat, i: nat)
    requires GoneUpTo(t, s, n, i) && i < |s|
    requires |Content(s[..i])| < n < |Content(s[..i])| + s[i].len
    ensures var k := n - |Content(s[..i])|; FrontGone(t[i := Shape(t[i].off + k, t[i].len - k)], s, n)
  {
    hide Content, Sound;
    var k := n - |Content(s[..i])|;
    var t' := t[i := Shape(t[i].off + k, t[i].len - k)];
    OneOn(s, i);
    forall j | 0 <= j < |s|
      ensures var cut := Min(Max(n - |Content(s[..j])|, 0), s[j].len);
              t'[j] == Shape(s[j].off + if cut == s[j].len then 0 else cut, s[j].len - cut)
    {
      if j < i {
        OneOn(s, j);
        Rising(s, j + 1, i);
      } else if j > i {
        Rising(s, i + 1, j);
      }
    }
  }

  /** The next buffer is still as it was. */
  lemma GoneHere(c: seq<Mbuf>, s: seq<Buf>, n: nat, i: nat)
    requires GoneUpTo(Outline(c), s, n, i) && i < |c|
    ensures i < |s| && Shape(c[i].off, c[i].len) == Outline(c)[i] == Shape(s[i].off, s[i].len)
    ensures |Content(s[..i + 1])| == |Content(s[..i])| + s[i].len
  {
    hide Outline, Content, Sound;
    ShapeAt(c, i);
    OneOn(s, i);
  }

  /** The first buffer with data left, once n bytes are gone from the front. */
  lemma {:induction false} FirstLeft(t: seq<Shape>, s: seq<Buf>, n: nat, z: nat)
    requires FrontGone(t, s, n) && Sound(s) && z <= |s| && forall j | 0 <= j < z :: t[j].len == 0
    ensures |Content(s[..z])| <= n
    ensures z < |s| && t[z].len != 0 ==>
        && n < |Content(s[..z + 1])| && t[z].off == s[z].off + n - |Content(s[..z])|
        && t[z].len == |Content(s[..z + 1])| - n
    ensures forall j | z < j < |s| && n <= |Content(s[..j])| :: t[j] == Shape(s[j].off, s[j].len)
  {
    hide Content, Sound;
    ContentNone(s);
    if z > 0 {
      FirstLeft(t, s, n, z - 1);
      OneOn(s, z - 1);
    }
    if z < |s| {
      OneOn(s, z);
    }
  }

  // The same on shapes alone, for one cut after the other.

  function Sum(t: seq<Shape>): nat {
    if t == [] then 0 else t[0].len + Sum(t[1..])
  }

  /** The buffers that still hold data once n bytes are gone from the front. */
  function Front(t: seq<Shape>, n: nat): seq<Shape> {
    if t == [] then []
    else if t[0].len <= n then Front(t[1..], n - t[0].len)
    else [Shape(t[0].off + n, t[0].len - n)] + t[1..]
  }

  /** How many buffers a packet keeps when n bytes are split off its front: those with data left, and the head, emptied,
      if it is not among them and the header has no room in front of what is left. */
  function Kept(t: seq<Shape>, hdr: nat, n: nat): nat
    requires t != []
  {
    var f := Front(t, n);
    if t[0].len > n then |f| else if f == [] then 1 else if f[0].off >= hdr then |f| else |f| + 1
  }

  /** v is what one split of n bytes leaves of u. */
  ghost predicate Splits(v: seq<Shape>, u: seq<Shape>, hdr: nat, n: nat) {
    u != [] && |v| == Kept(u, hdr, n) && (v == Front(u, n) || (v != [] && v[0].len == 0 && v[1..] == Front(u, n)))
  }

  /** u is what splits have left of t, n bytes in all; nothing has been done for n == 0. */
  ghost predicate LeftOver(u: seq<Shape>, t: seq<Shape>, hdr: nat, n: nat)
    requires t != []
  {
    if n == 0 then u == t
    else |u| == Kept(t, hdr, n) && (u == Front(t, n) || (u != [] && u[0].len == 0 && u[1..] == Front(t, n)))
  }

  lemma {:induction false} FrontTwice(t: seq<Shape>, n: nat, m: nat)
    ensures Front(Front(t, n), m) == Front(t, n + m)
  {
    if t != [] {
      if t[0].len <= n {
        FrontTwice(t[1..], n - t[0].len, m);
      } else {
        assert Front(t, n)[1..] == t[1..];
      }
    }
  }

  lemma {:induction false} FrontSome(t: seq<Shape>, n: nat)
    ensures Sum(Front(t, n)) == Max(Sum(t) - n, 0)
    ensures forall i | 0 <= i < |Front(t, n)| && i == 0 :: Front(t, n)[i].len > 0
  {
    if t != [] {
      if t[0].len <= n {
        FrontSome(t[1..], n - t[0].len);
      } else {
        assert Front(t, n)[1..] == t[1..];
      }
    }
  }

  /** One more split. */
  lemma LeftNext(u: seq<Shape>, t: seq<Shape>, hdr: nat, n: nat, m: nat, v: seq<Shape>)
    requires t != [] && LeftOver(u, t, hdr, n) && m > 0 && Splits(v, u, hdr, m)
    ensures LeftOver(v, t, hdr, n + m)
  {
    var f := Front(t, n);
    if n > 0 {
      FrontTwice(t, n, m);
      FrontSome(t, n);
      FrontSome(t, n + m);
      if u == f {
        assert Front(u, m) == Front(t, n + m);
      } else {
        assert Front(u, m) == Front(f, m) == Front(t, n + m);
      }
    }
  }

  /** Where the cut lies: z is the buffer that the n-th byte is in. */
  lemma {:induction false} FrontIs(t: seq<Shape>, n: nat, z: nat)
    requires z < |t| && Sum(t[..z]) <= n < Sum(t[..z + 1])
    ensures Front(t, n) == [Shape(t[z].off + n - Sum(t[..z]), Sum(t[..z + 1]) - n)] + t[z + 1..]
  {
    assert t[..z + 1][1..] == t[1..][..z];
    if z > 0 {
      assert t[..z][1..] == t[1..][..z - 1];
      FrontIs(t[1..], n - t[0].len, z - 1);
    } else {
      assert t[..1][1..] == [] && t[..0] == [];
    }
  }

  lemma {:induction false} SumIs(t: seq<Shape>, s: seq<Buf>, z: nat)
    requires Sound(s) && |t| == |s| && z <= |s| && forall j | 0 <= j < |s| :: t[j].len == s[j].len
    ensures Sum(t[..z]) == |Content(s[..z])|
  {
    hide Content, Sound;
    ContentNone(s);
    if z > 0 {
      SumIs(t, s, z - 1);
      OneOn(s, z - 1);
      SumSnoc(t[..z - 1], t[z - 1]);
      assert t[..z] == t[..z - 1] + [t[z - 1]];
    }
  }

  lemma {:induction false} SumSnoc(t: seq<Shape>, x: Shape)
    ensures Sum(t + [x]) == Sum(t) + x.len
  {
    if t != [] {
      assert (t + [x])[1..] == t[1..] + [x];
      SumSnoc(t[1..], x);
    } else {
      assert t + [x] == [x] && [x][1..] == [];
    }
  }

  /** What is left of the buffers s, in shapes t0, from the first one with data on. */
  lemma {:induction false} FrontOfCut(t: seq<Shape>, t0: seq<Shape>, s: seq<Buf>, n: nat, z: nat)
    requires FrontGone(t, s, n) && Sound(s) && |t0| == |s| && z <= |s|
    requires forall j | 0 <= j < |s| :: t0[j] == Shape(s[j].off, s[j].len)
    requires (forall j | 0 <= j < z :: t[j].len == 0) && (z < |s| ==> t[z].len != 0)
    ensures Front(t0, n) == t[z..] && (s != [] ==> (t0[0].len > n <==> z == 0))
  {
    hide Content, Sound, FrontGone;
    FirstLeft(t, s, n, z);
    SumIs(t0, s, z);
    GoneSize(t, s, n);
    if z < |s| {
      SumIs(t0, s, z + 1);
      FrontIs(t0, n, z);
      forall j | z < j < |s| ensures t[j] == t0[j] {
        Rising(s, z + 1, j);
      }
    } else {
      assert t0[..z] == t0;
      FrontSome(t0, n);
    }
    if s != [] {
      OneOn(s, 0);
      ContentNone(s);
      if z > 0 {
        FirstLeft(t, s, n, 1);
      }
    }
  }

  lemma GoneSize(t: seq<Shape>, s: seq<Buf>, n: nat)
    requires FrontGone(t, s, n)
    ensures |t| == |s|
  {
  }

  /** With the n-th byte in the z-th buffer: the buffers from there on, and one for the header if it has no room. */
  lemma KeptIs(t: seq<Shape>, hdr: nat, n: nat, z: nat)
    requires z < |t| && Sum(t[..z]) <= n < Sum(t[..z + 1])
    ensures Kept(t, hdr, n) ==
            if z == 0 || t[z].off + n - Sum(t[..z]) >= hdr then |t| - z else |t| - z + 1
  {
    FrontIs(t, n, z);
    assert t[..z + 1][0] == t[0] && (z > 0 ==> t[..z][0] == t[0]);
    assert t[..1][1..] == [];
  }
}
