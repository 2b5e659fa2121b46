// Bytes, 16-bit stores and block copies.
module ByteSeqs {

  newtype byte = x: int | 0 <= x < 0x100

  function Min(a: int, b: int): int { if a <= b then a else b }

  function Max(a: int, b: int): int { if a >= b then a else b }

  type uint16 = x: int | 0 <= x < 0x1_0000

  /** Stores into a `uint16_t` keep the low 16 bits. */
  function U16(x: int): uint16 { x % 0x1_0000 }

  lemma U16Add(a: int, b: int)
    ensures U16(U16(a) + b) == U16(a + b)
  {
  }

  lemma U16Sub(a: int, b: int)
    ensures U16(U16(a) - b) == U16(a - b)
  {
  }

  lemma U16Sum(a: int, b: int)
    ensures U16(U16(a) + U16(b)) == U16(a + b) == U16(U16(a) + b)
  {
  }

  lemma U16Same(a: int)
    ensures 0 <= a < 0x1_0000 ==> U16(a) == a
    ensures 0 <= a ==> U16(a) <= a
  {
  }

  /** The first n elements, as far as there are any. */
  function Prefix<T>(s: seq<T>, n: int): seq<T> {
    if n < 0 then [] else if n <= |s| then s[..n] else s
  }

  /** A block copy of s over the bytes of d that start at `at`. */
  function Splice(d: seq<byte>, at: nat, s: seq<byte>): (r: seq<byte>)
    requires at + |s| <= |d|
    ensures |r| == |d|
    ensures r[..at] == d[..at] && r[at..at + |s|] == s && r[at + |s|..] == d[at + |s|..]
  {
    d[..at] + s + d[at + |s|..]
  }

  /** s without its k-th element. */
  function Without<T>(s: seq<T>, k: nat): seq<T>
    requires k < |s|
  {
    s[..k] + s[k + 1..]
  }

  lemma TakeNext<T>(a: seq<T>, f: seq<T>, k: nat)
    requires k < |f|
    ensures a + f[..k] + [f[k]] == a + f[..k + 1] && f[k..][0] == f[k] && f[k..][1..] == f[k + 1..]
  {
  }

  lemma SliceNext<T>(b: seq<T>, d: seq<T>, i: nat, j: nat, k: nat)
    requires i <= j <= k <= |d|
    ensures b + d[i..j] + d[j..k] == b + d[i..k]
  {
    assert d[i..j] + d[j..k] == d[i..k];
  }

  lemma EndsOf<T>(c: seq<T>, f: seq<T>, k: nat)
    requires k <= |f| && c != []
    ensures (c + f[..k])[|c + f[..k]| - 1] in c || (c + f[..k])[|c + f[..k]| - 1] in f
    ensures (c + f[..k])[0] == c[0]
  {
  }

  lemma SliceMore<T>(b: seq<T>, d: seq<T>, n: nat, t: nat, m: nat)
    requires n + t <= |d| && m <= t
    ensures b + d[0..n] + d[n..n + t][0..m] == b + d[0..n + m]
  {
    assert d[0..n] + d[n..n + t][0..m] == d[0..n + m];
  }

  lemma SpliceAt(d: seq<byte>, at: nat, s: seq<byte>, k: nat)
    requires at + |s| <= |d| && k < |d|
    ensures Splice(d, at, s)[k] == if k < at || k >= at + |s| then d[k] else s[k - at]
  {
  }

  lemma SpliceLow(d: seq<byte>, at: nat, s: seq<byte>, i: nat, j: nat)
    requires at + |s| <= |d| && i <= j <= at
    ensures Splice(d, at, s)[i..j] == d[i..j]
  {
    assert Splice(d, at, s)[..at][i..j] == d[..at][i..j];
  }

  /** Cutting a concatenation inside and behind its second part. */
  lemma CutMiddle<T>(a: seq<T>, d: seq<T>, e: seq<T>, sub: nat)
    requires sub <= |d|
    ensures (a + (d + e))[..|a| + sub] == a + d[..sub] && (a + (d + e))[|a| + |d|..] == e
  {
    assert a + (d + e) == a + d + e == a + d[..sub] + (d[sub..] + e);
  }

  /** Moving the first part of x over to what stands before it. */
  lemma Regroup<T>(a: seq<T>, x: seq<T>, n: nat, e: seq<T>)
    requires n <= |x|
    ensures a + x[..n] + (x[n..] + e) == a + (x + e)
  {
  }

  lemma JoinRest<T>(a: seq<T>, b: seq<T>, p: nat, q: nat)
    requires p <= q <= |b|
    ensures a + b[p..q] + b[q..] == a + b[p..]
  {
    assert b[p..q] + b[q..] == b[p..];
  }

  lemma SliceOfSlice<T>(s: seq<T>, i: nat, j: nat, k: nat, l: nat)
    requires i <= j <= |s| && k <= l <= j - i
    ensures s[i..j][k..l] == s[i + k..i + l]
  {
    var t := s[i..j];
    forall q | 0 <= q < l - k ensures t[k..l][q] == s[i + k..i + l][q] {
      assert t[k + q] == s[i + k + q];
    }
  }

  lemma DropDrop<T>(s: seq<T>, a: nat, k: nat)
    requires a + k <= |s|
    ensures s[a..][k..] == s[a + k..]
  {
    var t := s[a..];
    forall q | 0 <= q < |s| - a - k ensures t[k..][q] == s[a + k..][q] {
      assert t[k + q] == s[a + k + q];
    }
  }
}
