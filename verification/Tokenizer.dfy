// line2argv: splitting a command line in place.
module Tokenizer {

  /** The characters of s before its first space. */
  function Word(s: string): (w: string)
    ensures |w| <= |s| && w == s[..|w|] && (|w| == |s| || s[|w|] == ' ') && ' ' !in w
  {
    if s == [] || s[0] == ' ' then [] else [s[0]] + Word(s[1..])
  }

  /** The maximal runs of non-spaces, in order. */
  function Words(s: string): seq<string>
    decreases |s|
  {
    if s == [] then []
    else if s[0] == ' ' then Words(s[1..])
    else
      var w := Word(s);
      [w] + Words(s[|w|..])
  }

  function Spaces(n: nat): string {
    if n == 0 then [] else [' '] + Spaces(n - 1)
  }

  /** The words with gaps[k] spaces in front of the k-th one, and the last gap at the end. */
  function Join(gaps: seq<nat>, ws: seq<string>): string
    requires |gaps| == |ws| + 1
    decreases |ws|
  {
    if ws == [] then Spaces(gaps[0]) else Spaces(gaps[0]) + (ws[0] + Join(gaps[1..], ws[1..]))
  }

  /** Words are not empty and hold no spaces; there is at least one space between any two of them. */
  predicate Separated(gaps: seq<nat>, ws: seq<string>) {
    && |gaps| == |ws| + 1
    && (forall k | 0 <= k < |ws| :: ws[k] != [] && ' ' !in ws[k])
    && (forall k | 0 < k < |ws| :: gaps[k] > 0)
  }

  lemma {:induction false} WordsAfterSpaces(n: nat, s: string)
    ensures Words(Spaces(n) + s) == Words(s)
  {
    if n == 0 {
      assert Spaces(0) + s == s;
    } else {
      assert (Spaces(n) + s)[1..] == Spaces(n - 1) + s;
      WordsAfterSpaces(n - 1, s);
    }
  }

  lemma {:induction false} WordIs(w: string, s: string)
    requires ' ' !in w && (s == [] || s[0] == ' ')
    ensures Word(w + s) == w
  {
    if w != [] {
      assert (w + s)[1..] == w[1..] + s;
      WordIs(w[1..], s);
    } else {
      assert w + s == s;
    }
  }

  lemma WordsCons(w: string, s: string)
    requires w != [] && ' ' !in w && (s == [] || s[0] == ' ')
    ensures Words(w + s) == [w] + Words(s)
  {
    WordIs(w, s);
    assert (w + s)[|w|..] == s;
  }

  /** Tokenizing words joined by any runs of spaces gives the words back. */
  lemma {:induction false} RoundTrip(gaps: seq<nat>, ws: seq<string>)
    requires Separated(gaps, ws)
    ensures Words(Join(gaps, ws)) == ws
    decreases |ws|
  {
    if ws == [] {
      WordsAfterSpaces(gaps[0], []);
      assert Spaces(gaps[0]) + [] == Spaces(gaps[0]);
    } else {
      var s := Join(gaps[1..], ws[1..]);
      RoundTrip(gaps[1..], ws[1..]);
      assert s == [] || s[0] == ' ' by {
        if ws[1..] == [] {
          assert s == Spaces(gaps[1]);
        } else {
          assert gaps[1] > 0;
        }
      }
      WordsAfterSpaces(gaps[0], ws[0] + s);
      WordsCons(ws[0], s);
    }
  }

  lemma MoreSpace(g: seq<nat>, ws: seq<string>)
    requires Separated(g, ws)
    ensures Separated(g[0 := g[0] + 1], ws) && Join(g[0 := g[0] + 1], ws) == [' '] + Join(g, ws)
  {
    var h := g[0 := g[0] + 1];
    assert h[1..] == g[1..];
  }

  lemma MoreWord(w: string, g: seq<nat>, ws: seq<string>)
    requires Separated(g, ws) && w != [] && ' ' !in w && (ws == [] || g[0] > 0)
    ensures Separated([0] + g, [w] + ws) && Join([0] + g, [w] + ws) == w + Join(g, ws)
  {
    assert ([0] + g)[1..] == g && ([w] + ws)[1..] == ws;
  }

  /** Every line is its words joined by runs of spaces. */
  lemma {:induction false} Decomposed(s: string) returns (gaps: seq<nat>)
    ensures Separated(gaps, Words(s)) && Join(gaps, Words(s)) == s
    ensures s != [] && s[0] == ' ' ==> gaps[0] > 0
    decreases |s|
  {
    hide Join, Separated;
    if s == [] {
      gaps := [0];
      NoGaps();
    } else if s[0] == ' ' {
      var g := Decomposed(s[1..]);
      assert |g| > 0 by {
        GapCount(g, Words(s[1..]));
      }
      MoreSpace(g, Words(s[1..]));
      gaps := g[0 := g[0] + 1];
    } else {
      var w := Word(s);
      var rest := s[|w|..];
      var g := Decomposed(rest);
      GapCount(g, Words(rest));
      MoreWord(w, g, Words(rest));
      gaps := [0] + g;
    }
  }

  lemma NoGaps()
    ensures Separated([0], []) && Join([0], []) == []
  {
  }

  lemma GapCount(g: seq<nat>, ws: seq<string>)
    requires Separated(g, ws)
    ensures |g| == |ws| + 1
  {
  }

  const NUL: char := '\0'
  /** A null pointer among the offsets into the line. */
  const NULL: int := -1

  /** The buffer holds the NUL-terminated string s. */
  predicate Terminated(b: seq<char>, s: string) {
    |s| < |b| && b[..|s|] == s && b[|s|] == NUL && NUL !in s
  }

  /** The string read from position p up to the next NUL is w. */
  predicate Reads(b: seq<char>, p: int, w: string) {
    0 <= p && p + |w| < |b| && b[p..p + |w|] == w && b[p + |w|] == NUL && NUL !in w
  }

  lemma SkipSpace(s: string, p: nat)
    requires p < |s| && s[p] == ' '
    ensures Words(s[p..]) == Words(s[p + 1..])
  {
    assert s[p..][1..] == s[p + 1..];
  }

  lemma FrontWord(s: string, p: nat, q: nat)
    requires p < q <= |s| && (forall k | p <= k < q :: s[k] != ' ') && (q < |s| ==> s[q] == ' ')
    ensures Words(s[p..]) == [s[p..q]] + Words(s[q..])
  {
    assert s[p..] == s[p..q] + s[q..];
    WordsCons(s[p..q], s[q..]);
  }

  /** From position p on, the buffer still holds what is left of the line s, up to its NUL. */
  predicate Rest(b: seq<char>, s: string, p: nat) {
    p <= |s| < |b| && b[p..|s|] == s[p..] && b[|s|] == NUL && NUL !in s
  }

  lemma RestAt(b: seq<char>, s: string, p: nat)
    requires Rest(b, s, p)
    ensures |s| < |b| && b[|s| := NUL] == b && forall k | p <= k < |s| :: b[k] == s[k] != NUL
  {
    forall k | p <= k < |s| ensures b[k] == s[k] != NUL {
      assert b[k] == b[p..|s|][k - p] == s[p..][k - p];
    }
  }

  /** Skips spaces from position p on. */
  method SkipSpaces(buf: array<char>, p: nat, ghost s: string) returns (r: nat)
    requires Rest(buf[..], s, p)
    ensures p <= r <= |s| && Words(s[p..]) == Words(s[r..]) && (r < |s| ==> s[r] != ' ')
    ensures buf[r] == NUL <==> r == |s|
  {
    hide Words;
    RestAt(buf[..], s, p);
    r := p;
    while buf[r] != NUL && buf[r] == ' '
      invariant p <= r <= |s| && Words(s[p..]) == Words(s[r..])
      decreases |s| - r
    {
      SkipSpace(s, r);
      r := r + 1;
    }
  }

  /** strchr(buf + p, ' '): the position of the first space, or null when the string ends before. */
  method FindSpace(buf: array<char>, p: nat, ghost s: string) returns (q: int)
    requires Rest(buf[..], s, p)
    ensures q == NULL ==> forall k | p <= k < |s| :: s[k] != ' '
    ensures q != NULL ==> p <= q < |s| && s[q] == ' ' && forall k | p <= k < q :: s[k] != ' '
  {
    RestAt(buf[..], s, p);
    q := p;
    while buf[q] != ' '
      invariant p <= q <= |s| && forall k | p <= k < q :: s[k] != ' '
      decreases |s| - q
    {
      if buf[q] == NUL {
        return NULL;
      }
      q := q + 1;
    }
  }

  /** The first n words of ws can be read at the offsets in args, all in front of position p. */
  ghost predicate Parsed(b: seq<char>, args: seq<int>, ws: seq<string>, n: nat, p: nat) {
    n <= |args| && n <= |ws| && forall k | 0 <= k < n :: Reads(b, args[k], ws[k]) && args[k] + |ws[k]| < p
  }

  /** One word more, ended by the NUL at position q. */
  lemma ParsedNext(b: seq<char>, b': seq<char>, args: seq<int>, ws: seq<string>, n: nat, s: string, p: nat, q: nat)
    requires Parsed(b, args, ws, n, p) && Rest(b, s, p) && p < q <= |s| && b' == b[q := NUL]
    requires n < |args| && args[n] == p && n < |ws| && ws[n] == s[p..q]
    ensures Parsed(b', args, ws, n + 1, q + 1) && (q < |s| ==> Rest(b', s, q + 1))
  {
    RestAt(b, s, p);
    assert b'[p..q] == s[p..q];
    forall k | 0 <= k < n ensures Reads(b', args[k], ws[k]) {
      assert b'[args[k]..args[k] + |ws[k]|] == b[args[k]..args[k] + |ws[k]|];
    }
    if q < |s| {
      assert b'[q + 1..|s|] == s[q + 1..];
    }
  }

  /** The next word, and what the line holds behind it. */
  lemma NextWord(s: string, ws: seq<string>, n: nat, p: nat, q: nat)
    requires p < q <= |s| && (forall k | p <= k < q :: s[k] != ' ') && (q < |s| ==> s[q] == ' ')
    requires n <= |ws| && Words(s[p..]) == ws[n..]
    ensures n < |ws| && ws[n] == s[p..q] && ws[n + 1..] == if q < |s| then Words(s[q + 1..]) else []
  {
    FrontWord(s, p, q);
    assert ws[n..][0] == ws[n] && ws[n..][1..] == ws[n + 1..];
    if q < |s| {
      SkipSpace(s, q);
    }
  }

  lemma ParsedMore(b: seq<char>, args: seq<int>, ws: seq<string>, n: nat, p: nat, x: int)
    requires Parsed(b, args, ws, n, p)
    ensures Parsed(b, args + [x], ws, n, p)
  {
  }

  lemma ParsedAll(b: seq<char>, args: seq<int>, ws: seq<string>, n: nat, p: nat)
    requires Parsed(b, args, ws, n, p)
    ensures n <= |ws| && n <= |args| && forall k | 0 <= k < n :: Reads(b, args[k], ws[k])
  {
  }

  /** What the buffer holds before the first word. */
  lemma StartOf(b: seq<char>, s: string, ws: seq<string>, p: nat)
    requires Terminated(b, s) && p <= |s|
    ensures Rest(b, s, p) && Parsed(b, [p], ws, 0, p) && s[0..] == s && (b[0] == NUL <==> s == [])
  {
    assert b[p..|s|] == s[p..];
    if s != [] {
      assert b[..|s|][0] == s[0] != NUL;
    }
  }

  /** No space behind the last word: the line's own NUL ends it. */
  lemma LastWord(b: seq<char>, s: string, str: nat, args: seq<int>, ws: seq<string>)
    requires Rest(b, s, str) && args != [] && Parsed(b, args, ws, |args| - 1, str) && args[|args| - 1] == str
    requires |args| - 1 <= |ws| && Words(s[str..]) == ws[|args| - 1..]
    requires str < |s| && forall k | str <= k < |s| :: s[k] != ' '
    ensures |ws| == |args| && forall k | 0 <= k < |args| :: Reads(b, args[k], ws[k])
  {
    hide Words, Rest, Parsed, Reads;
    NextWord(s, ws, |args| - 1, str, |s|);
    RestAt(b, s, str);
    ParsedNext(b, b, args, ws, |args| - 1, s, str, |s|);
    ParsedAll(b, args, ws, |args|, |s| + 1);
  }

  /** Ends the word that starts at str with a NUL in place of the space at q, and moves on to the next word. */
  method CutWord(buf: array<char>, str: nat, q: nat, ghost args: seq<int>, ghost ws: seq<string>, ghost s: string)
    returns (str': nat)
    requires Rest(buf[..], s, str) && args != [] && Parsed(buf[..], args, ws, |args| - 1, str)
        && args[|args| - 1] == str
    requires |args| - 1 <= |ws| && Words(s[str..]) == ws[|args| - 1..]
    requires str < q < |s| && s[q] == ' ' && forall k | str <= k < q :: s[k] != ' '
    modifies buf
    ensures q < str' <= |s| && Rest(buf[..], s, str') && Parsed(buf[..], args, ws, |args|, str')
    ensures |args| <= |ws| && Words(s[str'..]) == ws[|args|..]
    ensures (buf[str'] == NUL <==> str' == |s|) && (str' == |s| <==> |args| == |ws|) && (str' < |s| ==> s[str'] != ' ')
  {
    hide Words, Rest, Parsed, Reads;
    ghost var b := buf[..];
    NextWord(s, ws, |args| - 1, str, q);
    RestAt(b, s, str);
    buf[q] := NUL;
    assert buf[..] == b[q := NUL];
    ParsedNext(b, buf[..], args, ws, |args| - 1, s, str, q);
    str' := SkipSpaces(buf, q + 1, s);
    NoWords(s[str'..]);
    RestLater(buf[..], s, q + 1, str');
    ParsedLater(buf[..], args, ws, |args|, q + 1, str');
  }

  /** line2argv; argv holds offsets into the line. */
  method Line2Argv(buf: array<char>, argv: array<int>, size: nat, ghost s: string) returns (argc: nat)
    requires Terminated(buf[..], s) && 2 <= size <= argv.Length
    modifies buf, argv
    ensures argc == if |Words(s)| < size then |Words(s)| else 0
    ensures argc > 0 ==> argv[argc] == NULL && forall k | 0 <= k < argc :: Reads(buf[..], argv[k], Words(s)[k])
    ensures Words(s) == [] ==> buf[..] == old(buf[..])
  {
    hide Words, Rest, Parsed, Reads, Terminated;
    ghost var ws := Words(s);
    argc := 0;
    StartOf(buf[..], s, ws, 0);
    NoWords(s);
    if buf[0] == NUL {
      return 0;
    }
    var str := SkipSpaces(buf, 0, s);
    NoWords(s[str..]);
    if buf[str] == NUL {
      return 0;
    }
    StartOf(buf[..], s, ws, str);
    ghost var args: seq<int> := [str];
    argv[argc] := str;
    argc := argc + 1;
    while true
      invariant 1 <= argc < size && argv[..argc] == args && args[argc - 1] == str < |s| && s[str] != ' '
      invariant Rest(buf[..], s, str) && argc - 1 <= |ws| && Words(s[str..]) == ws[argc - 1..]
      invariant Parsed(buf[..], args, ws, argc - 1, str)
      decreases |s| - str
    {
      var q := FindSpace(buf, str, s);
      if q == NULL {
        LastWord(buf[..], s, str, args, ws);
        break;
      }
      str := CutWord(buf, str, q, args, ws, s);
      if buf[str] == NUL {
        ParsedAll(buf[..], args, ws, argc, str);
        break;
      }
      ParsedMore(buf[..], args, ws, argc, str, str);
      argv[argc] := str;
      args := args + [str];
      argc := argc + 1;
      if argc == size {
        return 0;
      }
    }
    argv[argc] := NULL;
    assert forall k | 0 <= k < argc :: argv[k] == argv[..argc][k] == args[k];
  }

  lemma RestLater(b: seq<char>, s: string, p: nat, q: nat)
    requires Rest(b, s, p) && p <= q <= |s|
    ensures Rest(b, s, q)
  {
    RestAt(b, s, p);
  }

  lemma ParsedLater(b: seq<char>, args: seq<int>, ws: seq<string>, n: nat, p: nat, q: nat)
    requires Parsed(b, args, ws, n, p) && p <= q
    ensures Parsed(b, args, ws, n, q)
  {
  }

  lemma NoWords(s: string)
    ensures s == [] ==> Words(s) == []
    ensures s != [] && s[0] != ' ' ==> Words(s) != []
  {
  }
}
