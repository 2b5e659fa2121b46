// How full the buffers of a chain are, and when packing them leaves an empty one at the end.
module Spans {
  import opened ByteSeqs
  import Pieces

  /** A buffer's room behind its header, and how much of it is data. */
  datatype Span = Span(room: int, len: nat) {
    function Free(): int {
      room - len
    }
  }

  /** The buffers from the first one with data on. */
  function Skip(s: seq<Span>): (r: seq<Span>)
    ensures |r| <= |s| && (r != [] ==> r[0].len > 0)
  {
    if s != [] && s[0].len == 0 then Skip(s[1..]) else s
  }

  /** Whether packing leaves an empty buffer at the end: a buffer that is full is left behind, and the next one follows
      even if it is empty; one that is not takes in the next, and then all empty ones behind it go, too. */
  predicate EmptyLast(s: seq<Span>)
    decreases |s|
  {
    if s == [] then false
    else if |s| == 1 then s[0].len == 0
    else if s[0].Free() <= 0 then EmptyLast(s[1..])
    else if s[1].len <= s[0].Free() then EmptyLast([s[0].(len := s[0].len + s[1].len)] + Skip(s[2..]))
    else EmptyLast([s[1].(len := s[1].len - s[0].Free())] + s[2..])
  }

  /** n bytes move from the (k + 1)-th buffer to the k-th. */
  function Moved(s: seq<Span>, k: nat, n: nat): seq<Span>
    requires k + 1 < |s| && n <= s[k + 1].len
  {
    s[k := s[k].(len := s[k].len + n)][k + 1 := s[k + 1].(len := s[k + 1].len - n)]
  }

  /** The empty buffers that follow the k-th are gone. */
  function Dropped(s: seq<Span>, k: nat): seq<Span>
    requires k < |s|
  {
    s[..k + 1] + Skip(s[k + 1..])
  }

  lemma DroppedOne(s: seq<Span>, k: nat)
    requires k + 1 < |s| && s[k + 1].len == 0
    ensures Dropped(Without(s, k + 1), k) == Dropped(s, k)
  {
    var t := Without(s, k + 1);
    assert t[..k + 1] == s[..k + 1] && t[k + 1..] == s[k + 1..][1..];
  }

  lemma DroppedNone(s: seq<Span>, k: nat)
    requires k < |s| && (k + 1 < |s| ==> s[k + 1].len > 0)
    ensures Dropped(s, k) == s
  {
  }

  /** One turn of the copying loop, from the (k + 1)-th buffer into the k-th, with the empty buffers behind freed. */
  lemma TurnKeeps(s: seq<Span>, k: nat, n: nat)
    requires k + 1 < |s| && s[k].Free() > 0 && n == Min(s[k].Free(), s[k + 1].len)
    ensures EmptyLast(Dropped(Moved(s, k, n), k)[k..]) == EmptyLast(s[k..])
  {
    var t := Moved(s, k, n);
    var a, b := t[k], t[k + 1];
    assert t[k + 1..] == [b] + s[k + 2..] && t[k + 1..][1..] == s[k + 2..];
    assert s[k..][2..] == s[k + 2..];
    var u := [a] + Skip(t[k + 1..]);
    assert Dropped(t, k)[k..] == u;
    assert u[1..] == Skip(t[k + 1..]);
  }

  lemma Passed(s: seq<Span>, k: nat)
    requires k < |s|
    ensures k + 1 < |s| && s[k].Free() <= 0 ==> EmptyLast(s[k..]) == EmptyLast(s[k + 1..])
    ensures k + 1 == |s| ==> (EmptyLast(s[k..]) <==> s[k].len == 0)
  {
    assert k + 1 < |s| ==> s[k..][1..] == s[k + 1..];
  }

  /** Without empty buffers to begin with there is none at the end. */
  lemma {:induction false} NoneEmpty(s: seq<Span>)
    requires forall i | 0 <= i < |s| :: s[i].len > 0
    ensures !EmptyLast(s)
    decreases |s|
  {
    if |s| > 1 {
      if s[0].Free() <= 0 {
        NoneEmpty(s[1..]);
      } else if s[1].len <= s[0].Free() {
        assert Skip(s[2..]) == s[2..];
        NoneEmpty([s[0].(len := s[0].len + s[1].len)] + Skip(s[2..]));
      } else {
        NoneEmpty([s[1].(len := s[1].len - s[0].Free())] + s[2..]);
      }
    }
  }

  function Total(s: seq<Span>): nat {
    if s == [] then 0 else s[0].len + Total(s[1..])
  }

  lemma TotalOne(b: Span, s: seq<Span>)
    ensures Total([b] + s) == b.len + Total(s)
  {
    assert ([b] + s)[1..] == s;
  }

  lemma TotalTwo(s: seq<Span>)
    requires |s| > 1
    ensures Total(s) == s[0].len + Total(s[1..]) == s[0].len + s[1].len + Total(s[2..])
    ensures |s| == 2 ==> Total(s[2..]) == 0
  {
    assert s[1..][1..] == s[2..];
  }

  lemma {:induction false} AllEmpty(z: seq<Span>)
    requires z != [] && forall i | 0 <= i < |z| :: z[i].len == 0 < z[i].room
    ensures EmptyLast(z)
  {
    if |z| > 1 {
      NothingBehind(z[2..]);
      assert [z[0].(len := z[0].len + z[1].len)] + Skip(z[2..]) == [z[0]];
    }
  }

  lemma {:induction false} NothingBehind(z: seq<Span>)
    requires forall i | 0 <= i < |z| :: z[i].len == 0
    ensures Skip(z) == []
  {
    if z != [] {
      NothingBehind(z[1..]);
    }
  }

  /** Buffers of one size d, the first perhaps with a header, with the data p in front and then empty ones: an empty
      buffer stays exactly if the data fills a number of buffers and the last buffer with data is full already. */
  lemma {:induction false} OneSize(p: seq<Span>, z: seq<Span>, d: nat)
    requires p != [] && z != [] && 0 < p[0].room <= d && forall i | 0 < i < |p| :: p[i].room == d
    requires forall i | 0 <= i < |p| :: 0 < p[i].len <= p[i].room
    requires forall i | 0 <= i < |z| :: z[i].len == 0 && z[i].room == d
    ensures EmptyLast(p + z) <==> p[|p| - 1].Free() == 0 && Whole(Total(p) - p[0].room, d)
    decreases |p|
  {
    hide Whole, Total, EmptyLast;
    if |p| == 1 {
      OneWithData(p, z, d);
    } else if p[0].Free() == 0 {
      FullFirst(p, z, d);
      OneSize(p[1..], z, d);
    } else if p[1].len <= p[0].Free() {
      TakenIn(p, z);
      if |p| > 2 {
        OneSize([p[0].(len := p[0].len + p[1].len)] + p[2..], z, d);
      }
    } else {
      Over(p, z, d);
      OneSize([p[1].(len := p[1].len - p[0].Free())] + p[2..], z, d);
    }
  }

  lemma OneWithData(p: seq<Span>, z: seq<Span>, d: nat)
    requires |p| == 1 && z != [] && 0 < p[0].len <= p[0].room <= d
    requires forall i | 0 <= i < |z| :: z[i].len == 0 && z[i].room == d
    ensures EmptyLast(p + z) <==> p[0].Free() == 0
    ensures p[0].Free() == 0 ==> Whole(Total(p) - p[0].room, d)
  {
    assert Total(p) == p[0].len && Whole(0, d);
    hide Whole, Total;
    assert (p + z)[1..] == z && (p + z)[2..] == z[1..];
    AllEmpty(z);
    NothingBehind(z[1..]);
  }

  lemma FullFirst(p: seq<Span>, z: seq<Span>, d: nat)
    requires |p| > 1 && p[0].Free() == 0 < d && p[1].len > 0
    ensures EmptyLast(p + z) == EmptyLast(p[1..] + z)
    ensures Whole(Total(p) - p[0].room, d) <==> Whole(Total(p[1..]) - d, d)
  {
    hide Whole, Total;
    assert (p + z)[1..] == p[1..] + z;
    TotalTwo(p);
    OneLess(Total(p) - p[0].room, d);
  }

  lemma TakenIn(p: seq<Span>, z: seq<Span>)
    requires |p| > 1 && 0 < p[1].len <= p[0].Free() && p[0].len > 0 && (|p| > 2 ==> p[2].len > 0)
    requires forall i | 0 <= i < |z| :: z[i].len == 0
    ensures var q := [p[0].(len := p[0].len + p[1].len)] + p[2..];
            && (EmptyLast(p + z) <==> |p| > 2 && EmptyLast(q + z)) && Total(q) == Total(p)
  {
    var b := p[0].(len := p[0].len + p[1].len);
    TotalTwo(p);
    TotalOne(b, p[2..]);
    assert (p + z)[2..] == p[2..] + z && [b] + p[2..] + z == [b] + (p[2..] + z);
    if |p| == 2 {
      NothingBehind(z);
      assert p[2..] + z == z;
    }
  }

  /** The second buffer has more data than the first one has room for. */
  lemma Over(p: seq<Span>, z: seq<Span>, d: nat)
    requires |p| > 1 && 0 < p[0].len < p[0].room <= d && p[1].room == d && p[0].Free() < p[1].len <= d
    ensures var b := p[1].(len := p[1].len - p[0].Free()); var q := [b] + p[2..];
            && EmptyLast(p + z) == EmptyLast(q + z) && b.Free() > 0
            && (Whole(Total(p) - p[0].room, d) <==> Whole(Total(q) - d, d))
    ensures |p| == 2 && p[1].len == d ==> !Whole(Total(p) - p[0].room, d)
  {
    hide Whole, Total;
    var b := p[1].(len := p[1].len - p[0].Free());
    TotalTwo(p);
    TotalOne(b, p[2..]);
    OneLess(Total(p) - p[0].room, d);
    assert (p + z)[2..] == p[2..] + z && [b] + p[2..] + z == [b] + (p[2..] + z);
  }

  /** x is a multiple of d, none of them included. */
  predicate Whole(x: int, d: nat)
    requires d > 0
  {
    x >= 0 && x % d == 0
  }

  lemma OneLess(x: int, d: nat)
    requires x > 0 && d > 0
    ensures Whole(x, d) <==> Whole(x - d, d)
    ensures x < d ==> !Whole(x, d)
  {
    if x < d {
      Pieces.QuotientIs(x, d, 0);
    } else {
      var k := x / d;
      assert x == k * d + x % d;
      assert (k - 1) * d == k * d - d;
      Pieces.QuotientIs(x - d, d, k - 1);
    }
  }
}
