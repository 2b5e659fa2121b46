// Cutting a byte string into pieces of one size, the last one shorter.
module Pieces {
  import opened ByteSeqs

  function Chunks(b: seq<byte>, m: nat): seq<seq<byte>>
    requires m > 0
    decreases |b|
  {
    if |b| <= m then [b] else [b[..m]] + Chunks(b[m..], m)
  }

  function Flat(v: seq<seq<byte>>): seq<byte> {
    if v == [] then [] else v[0] + Flat(v[1..])
  }

  /** Nothing is lost, repeated or reordered. */
  lemma {:induction false} ChunksFlat(b: seq<byte>, m: nat)
    requires m > 0
    ensures Flat(Chunks(b, m)) == b
    decreases |b|
  {
    if |b| <= m {
      assert Flat([b]) == b + Flat([]);
    } else {
      var v := Chunks(b, m);
      assert v[0] == b[..m] && v[1..] == Chunks(b[m..], m);
      ChunksFlat(b[m..], m);
    }
  }

  /** Every piece but the last has exactly m bytes; the last has 1 to m, or none for the empty string. */
  lemma {:induction false} ChunksSizes(b: seq<byte>, m: nat)
    requires m > 0
    ensures var v := Chunks(b, m);
            && v != [] && |v[|v| - 1]| <= m && (b != [] ==> v[|v| - 1] != [])
            && forall i | 0 <= i < |v| - 1 :: |v[i]| == m
    decreases |b|
  {
    if |b| > m {
      var v, w := Chunks(b, m), Chunks(b[m..], m);
      ChunksSizes(b[m..], m);
      assert forall i | 1 <= i < |v| :: v[i] == w[i - 1];
    }
  }

  /** The number of pieces: the quotient rounded up, and one for the empty string. */
  lemma {:induction false} ChunksCount(b: seq<byte>, m: nat)
    requires m > 0
    ensures |Chunks(b, m)| == if b == [] then 1 else (|b| + m - 1) / m
    decreases |b|
  {
    if |b| > m {
      ChunksCount(b[m..], m);
      QuotientStep(|b| - m, m);
    } else if b != [] {
      QuotientOne(|b|, m);
    }
  }

  /** Quotients are determined by their defining equation. */
  lemma QuotientIs(x: int, m: int, q: int)
    requires m > 0 && q * m <= x < q * m + m
    ensures x / m == q
  {
    var d := x / m - q;
    assert x / m * m + x % m == x;
    ProductSign(d, m);
  }

  lemma ProductSign(d: int, m: int)
    requires m > 0
    ensures (d >= 1 ==> d * m >= m) && (d <= -1 ==> d * m <= -m)
  {
  }

  lemma QuotientStep(n: nat, m: nat)
    requires m > 0
    ensures (n + m + m - 1) / m == (n + m - 1) / m + 1
  {
    var q := (n + m - 1) / m;
    assert q * m <= n + m - 1 < q * m + m;
    assert (q + 1) * m == q * m + m;
    QuotientIs(n + m + m - 1, m, q + 1);
  }

  lemma QuotientOne(n: nat, m: nat)
    requires 0 < n <= m
    ensures (n + m - 1) / m == 1
  {
    QuotientIs(n + m - 1, m, 1);
  }
}
