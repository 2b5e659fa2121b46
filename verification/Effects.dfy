// What each call does, told on values: the bytes and headers of packets and the free counts of pools.
module Effects {
  import opened ByteSeqs
  import opened Bufs
  import opened Mbufs
  import opened Appending
  import opened Prepending
  import opened Pullups
  import opened Widening
  import opened Overwriting
  import opened Duplicating
  import opened Fragments
  import Cursors

  /** A call on one packet. */
  datatype Call =
    | Append(data: seq<byte>)
    | Adj(n: int)
    | Prepend(room: nat)
    | PrependPullup(front: uint16)
    | CopyInto(off: nat, data: seq<byte>)
    | Pullup(front: uint16)
    | TrimFront
    | Widen(off: nat, gap: uint16)
    | Dup
    | SplitFrag(max: uint16, pool: Pool, userLen: nat)
    | FreeChain

  /** A call on two packets. */
  datatype PairCall = AppendFrom(off: nat, len: nat) | Concat | PackChains

  /** One step of a program that uses the buffers; packets are named by their place in the list of live packets.
      A guarded call is made only if it is safe. */
  datatype Step =
    | New(pool: Pool, leading: nat)
    | NewPacket(pool: Pool, userLen: nat)
    | One(i: nat, guarded: bool, call: Call)
    | Two(i: nat, j: nat, pairCall: PairCall)

  /** The value of a packet: what its buffers hold, and the pools they come from. */
  datatype Pack = Pack(bufs: seq<Buf>, pools: seq<Pool>) {
    function Bytes(): seq<byte> {
      Content(bufs)
    }

    predicate Has() {
      |bufs| == |pools| > 0
    }

    function Head(): Buf
      requires Has()
    {
      bufs[0]
    }

    function Last(): Buf
      requires Has()
    {
      bufs[|bufs| - 1]
    }

    predicate IsPkthdr()
      requires Has()
    {
      Head().pkthdrLen >= PKTHDR_SIZE
    }

    function Header(): seq<byte>
      requires Has()
    {
      Prefix(Head().databuf, Head().pkthdrLen)
    }

    /** What the last buffer can still take. */
    function Trail(): int
      requires Has()
    {
      Last().cap - Last().off - Last().len
    }

    /** What lies in front of the head's data. */
    function Lead(): int
      requires Has()
    {
      if IsPkthdr() then Head().off - Head().pkthdrLen else Head().off
    }
  }

  /** The free counts of the pools. */
  type Free = map<Pool, nat>

  ghost function PoolsOf(c: seq<Mbuf>): (l: seq<Pool>)
    ensures |l| == |c| && forall i | 0 <= i < |c| :: l[i] == c[i].pool
  {
    if c == [] then [] else [c[0].pool] + PoolsOf(c[1..])
  }

  ghost function PackOf(c: seq<Mbuf>): Pack
    reads c`databuf, c`off, c`len, c`flags, c`pkthdrLen, c`pktLen
  {
    Pack(Snaps(c), PoolsOf(c))
  }

  ghost function FreeOf(ps: Pools): (f: Free)
    reads ps.Keys
    ensures f.Keys == ps.Keys && forall q | q in ps :: f[q] == |q.free|
  {
    map q | q in ps :: |q.free|
  }

  /** k times the same pool */
  function Times(q: Pool, k: nat): (l: seq<Pool>)
    ensures |l| == k && forall i | 0 <= i < k :: l[i] == q
  {
    if k == 0 then [] else Times(q, k - 1) + [q]
  }

  /** q is p with its header as it was. */
  predicate SameHeader(p: Pack, q: Pack) {
    p.Has() && q.Has() && q.Header() == p.Header() && q.Head().pkthdrLen == p.Head().pkthdrLen
  }

  /** The header's length field counts n more; there is none without a header. */
  predicate Grows(p: Pack, q: Pack, n: int) {
    SameHeader(p, q) && q.Head().pktLen == if p.IsPkthdr() then U16(p.Head().pktLen + n) else p.Head().pktLen
  }

  /** What the last buffer and the free blocks of pool r can take. */
  function Space(p: Pack, free: Free, r: Pool): int
    requires p.Has()
  {
    p.Trail() + if r in free then free[r] * r.databufLen else 0
  }

  /** n bytes of x come to the end, in as few new buffers of r as can be. */
  predicate AtEnd(p: Pack, q: Pack, x: seq<byte>, n: nat, r: Pool) {
    && p.Has() && n <= |x| && q.Bytes() == p.Bytes() + x[..n] && |q.pools| >= |p.pools|
    && q.pools == p.pools + Times(r, |q.pools| - |p.pools|)
    && Needed(|q.pools| - |p.pools|, n - p.Trail(), r.databufLen)
  }

  predicate Appended(p: Pack, free: Free, data: seq<byte>, q: Pack) {
    && p.Has()
    && var n := Min(|data|, Space(p, free, p.pools[0]));
       n >= 0 && AtEnd(p, q, data, n, p.pools[0]) && Grows(p, q, n)
  }

  /** n >= 0 bytes are cut from the front, or -n from the end. */
  predicate Adjusted(p: Pack, n: int, q: Pack) {
    && SameHeader(p, q)
    && var b := p.Bytes();
       if n >= 0 then
         q.Bytes() == b[Min(n, |b|)..] && q.pools == p.pools && Grows(p, q, -Min(n, |b|))
       else
         && q.Bytes() == b[..Max(0, |b| + n)] && q.pools <= p.pools
         && if -n <= p.Last().len then q.pools == p.pools && Grows(p, q, n)
            else (|q.pools| > 1 ==> q.Last().len > 0)
                 && q.Head().pktLen == if p.IsPkthdr() then U16(|q.Bytes()|) else p.Head().pktLen
  }

  /** len bytes more in front; none exactly if leading space and free blocks together are too small. */
  predicate Prepended(p: Pack, free: Free, len: nat, out: seq<Pack>) {
    && p.Has() && p.pools[0] in free
    && var d := p.pools[0].databufLen - p.Head().pkthdrLen;
       if len > p.Lead() + free[p.pools[0]] * d then out == []
       else
         && |out| == 1 && out[0].Has() && SameHeader(p, out[0])
         && |out[0].Bytes()| == |p.Bytes()| + len && out[0].Bytes()[len..] == p.Bytes()
         && (p.IsPkthdr() ==> Grows(p, out[0], len))
  }

  predicate PrependedInOne(p: Pack, free: Free, len: nat, out: seq<Pack>) {
    && p.Has() && p.pools[0] in free
    && var f := free[p.pools[0]];
       if len > p.Lead()
          && (len > p.pools[0].databufLen - p.Head().pkthdrLen || f == 0 || (p.Lead() > 0 && f == 1)) then out == []
       else
         && |out| == 1 && out[0].Has() && SameHeader(p, out[0]) && out[0].Head().len >= len
         && |out[0].Bytes()| == |p.Bytes()| + len && out[0].Bytes()[len..] == p.Bytes()
         && (p.IsPkthdr() ==> Grows(p, out[0], len))
  }

  ghost predicate PulledUp(p: Pack, free: Free, len: nat, out: seq<Pack>) {
    && p.Has() && p.pools[0] in free
    && if p.Head().len >= len then out == [p]
       else if |p.Bytes()| < len
               || (p.Head().off + len > p.pools[0].databufLen
                   && (len > p.pools[0].databufLen - p.Head().pkthdrLen || free[p.pools[0]] == 0)) then out == []
       else
         && |out| == 1 && out[0].Has() && SameHeader(p, out[0]) && out[0].Bytes() == p.Bytes()
         && out[0].Head().len == len && (p.IsPkthdr() ==> out[0].Head().pktLen == p.Head().pktLen)
         && exists z: nat :: FrontEnds(p.bufs, len, z) && z <= |p.pools| && out[0].pools == [p.pools[0]] + p.pools[z..]
  }

  predicate CopiedInto(p: Pack, free: Free, off: nat, data: seq<byte>, q: Pack) {
    && p.Has()
    && var b, r := p.Bytes(), p.pools[|p.pools| - 1];
       if off > |b| then q == p
       else
         var rest := Max(0, off + |data| - |b|);
         var n := Min(U16(rest), Space(p, free, r));
         var x := if n >= 0 then data[..|data| - rest + n] else data;
         && n >= 0 && SameHeader(p, q)
         && q.Bytes() == b[..off] + x + Cursors.From(b, off + |x|)
         && |q.pools| >= |p.pools| && q.pools == p.pools + Times(r, |q.pools| - |p.pools|)
         && Needed(|q.pools| - |p.pools|, n - p.Trail(), r.databufLen)
         && q.Head().pktLen ==
            if !p.IsPkthdr() then p.Head().pktLen
            else if n == U16(rest) then CopiedLen(p.Head().pktLen, |b|, off, |data|, |p.bufs| == 1)
            else if |p.bufs| == 1 then U16(p.Head().pktLen + n) else p.Head().pktLen
  }

  /** z is the first of the buffers that holds data. */
  predicate FirstData(s: seq<Buf>, z: nat) {
    z <= |s| && (forall j | 0 <= j < z :: s[j].len == 0) && (z < |s| ==> s[z].len != 0)
  }

  /** Where the buffers come from once the first z have no data: the old head stays in front if the header does not fit
      into the next one. */
  function FrontPools(l: seq<Pool>, z: nat, fits: bool): seq<Pool>
    requires l != [] && z <= |l|
  {
    if z == 0 then l else if z == |l| then [l[0]] else if fits then l[z..] else [l[0]] + l[z..]
  }

  ghost predicate FrontTrimmed(p: Pack, q: Pack) {
    && SameHeader(p, q) && q.Bytes() == p.Bytes() && (p.IsPkthdr() ==> q.Head().pktLen == p.Head().pktLen)
    && exists z: nat :: FirstData(p.bufs, z)
         && q.pools == FrontPools(p.pools, z, z < |p.bufs| && p.bufs[z].off >= p.Head().pkthdrLen)
  }

  /** Position `sub` of the i-th buffer is offset `off`. */
  predicate Places(s: seq<Buf>, i: nat, sub: nat, off: nat) {
    i < |s| && sub <= s[i].len && (sub == s[i].len ==> i == |s| - 1) && off == |Content(s[..i])| + sub
  }

  /** The bytes b with a gap at an offset: t bytes behind it move along, if there is space for them where they are or in
      the room behind the gap; otherwise only as many as there is room for. */
  predicate BytesWithGap(b': seq<byte>, b: seq<byte>, off: nat, t: nat, gap: seq<byte>, inPlace: bool, room: nat) {
    && off + t <= |b|
    && if inPlace || t <= room then b' == b[..off] + gap + b[off..]
       else b' == b[..off] + gap + b[off..off + room] + b[off + t..]
  }

  /** A gap at an offset in the i-th buffer; lost is the number of blocks in no packet and not free. */
  ghost predicate GapAt(p: Pack, free: Free, off: nat, len: uint16, i: nat, sub: nat, q: Pack, lost: nat) {
    && p.Has() && Places(p.bufs, i, sub, off) && p.pools[0] in free && p.pools[0].databufLen > 0
    && var d, t, room := p.pools[0].databufLen, p.bufs[i].len - sub, p.bufs[i].cap - p.bufs[i].off - p.bufs[i].len;
       if room < len && len + t > free[p.pools[0]] * d then q == p && lost == 0
       else
         && Grows(p, q, len)
         && (room >= len ==> q.pools == p.pools && lost == 0)
         && (room < len ==> |q.pools| > |p.pools| && Needed(|q.pools| - |p.pools|, len, d))
         && (room < len ==> Needed(lost, t - (d - len % d) % d, d))
         && exists gap: seq<byte> ::
              |gap| == len && BytesWithGap(q.Bytes(), p.Bytes(), off, t, gap, room >= len, (d - len % d) % d)
  }

  ghost predicate GapMade(p: Pack, free: Free, off: nat, len: uint16, q: Pack, lost: nat) {
    if off > |p.Bytes()| then q == p && lost == 0
    else exists i: nat, sub: nat :: GapAt(p, free, off, len, i, sub, q, lost)
  }

  /** Copies of all buffers fit buffers of the first one's pool. */
  predicate Fits(p: Pack) {
    p.Has() && forall j | 0 <= j < |p.bufs| :: p.bufs[j].off + p.bufs[j].len <= p.pools[0].databufLen
  }

  ghost predicate Duplicated(p: Pack, free: Free, out: seq<Pack>) {
    && p.Has() && p.pools[0] in free
    && if !Fits(p) || free[p.pools[0]] < |p.bufs| then out == [p]
       else
         && |out| == 2 && out[0] == p && out[1].Has() && out[1].Bytes() == p.Bytes() && SameHeader(p, out[1])
         && out[1].pools == Times(p.pools[0], |p.pools|)
         && (p.IsPkthdr() ==> out[1].Head().pktLen == p.Head().pktLen)
         && |out[1].bufs| == |p.bufs|
         && forall j | 0 <= j < |p.bufs| :: out[1].bufs[j].Data() == p.bufs[j].Data()
  }

  /** The n-th byte is in the z-th buffer, or there is none. */
  predicate CutIn(s: seq<Buf>, n: nat, z: nat) {
    z <= |s| && |Content(s[..z])| <= n && (z < |s| ==> n < |Content(s[..z + 1])|)
  }

  ghost predicate SplitOff(p: Pack, free: Free, max: uint16, r: Pool, userLen: nat, out: seq<Pack>) {
    && p.Has() && r in free
    && var b, d, h := p.Bytes(), r.databufLen, PKTHDR_SIZE + userLen;
       if !p.IsPkthdr() || p.Head().pktLen <= max || |b| < max || h > d || h > 0xff || h + max > free[r] * d then
         out == [p]
       else
         && |out| == 2 && out[0].Has() && out[1].Has() && SameHeader(p, out[1])
         && out[0].Bytes() == b[..max] && out[0].Head().pktLen == max && out[0].IsPkthdr()
         && out[0].pools == Times(r, |out[0].pools|) && Needed(|out[0].pools|, h + max, d)
         && out[1].Bytes() == b[max..] && out[1].Head().pktLen == p.Head().pktLen - max
         && exists z: nat :: CutIn(p.bufs, max, z)
              && out[1].pools == FrontPools(p.pools, z, z < |p.bufs|
                   && p.bufs[z].off + max - |Content(p.bufs[..z])| >= p.Head().pkthdrLen)
  }

  /** What a call makes of a packet, and how many blocks are lost with it. */
  ghost predicate Effect(call: Call, p: Pack, free: Free, out: seq<Pack>, lost: nat) {
    && (!call.Widen? ==> lost == 0)
    && match call
       case Append(data) => |out| == 1 && Appended(p, free, data, out[0])
       case Adj(n) => |out| == 1 && Adjusted(p, n, out[0])
       case Prepend(len) => Prepended(p, free, len, out)
       case PrependPullup(len) => PrependedInOne(p, free, len, out)
       case CopyInto(off, data) => |out| == 1 && CopiedInto(p, free, off, data, out[0])
       case Pullup(len) => PulledUp(p, free, len, out)
       case TrimFront => |out| == 1 && FrontTrimmed(p, out[0])
       case Widen(off, len) => |out| == 1 && GapMade(p, free, off, len, out[0], lost)
       case Dup => Duplicated(p, free, out)
       case SplitFrag(max, r, userLen) => SplitOff(p, free, max, r, userLen, out)
       case FreeChain => out == []
  }

  /** What a call makes of two packets. */
  ghost predicate PairEffect(call: PairCall, p: Pack, p2: Pack, free: Free, out: seq<Pack>) {
    && p.Has() && p2.Has()
    && match call
       case AppendFrom(off, len) =>
         var a := Cursors.From(p2.Bytes(), off);
         var n := Min(Min(len, |a|), Space(p, free, p.pools[0]));
         && |out| == 2 && out[1] == p2 && n >= 0
         && AtEnd(p, out[0], a, n, p.pools[0]) && Grows(p, out[0], n)
       case Concat =>
         && |out| == 1 && out[0].Bytes() == p.Bytes() + p2.Bytes() && out[0].pools == p.pools + p2.pools
         && Grows(p, out[0], if p2.IsPkthdr() then p2.Head().pktLen else |p2.Bytes()|)
       case PackChains =>
         && |out| == 1 && out[0].Bytes() == p.Bytes() + p2.Bytes()
         && Grows(p, out[0], if p2.IsPkthdr() then p2.Head().pktLen else |p2.Bytes()|)
         && forall j | 0 <= j < |out[0].bufs| - 1 ::
              out[0].bufs[j].off == out[0].bufs[j].pkthdrLen
              && out[0].bufs[j].off + out[0].bufs[j].len == out[0].bufs[j].cap
  }

  /** What os_mbuf_get and os_mbuf_get_pkthdr make. */
  predicate NewEffect(r: Pool, header: bool, n: nat, free: Free, out: seq<Pack>) {
    && r in free
    && var h := if header then PKTHDR_SIZE + n else n;
       if free[r] == 0 || h > r.databufLen || (header && h > 0xff) then out == []
       else
         && |out| == 1 && out[0].Has() && out[0].pools == [r] && out[0].Bytes() == []
         && out[0].Head().off == h && out[0].Head().len == 0
         && out[0].Head().pkthdrLen == (if header then h else 0) && (header ==> out[0].Head().pktLen == 0)
  }

  /** The gap stays in the edge buffer, or the tail fits behind it in buffers of d bytes. */
  predicate GapStays(b: Buf, sub: nat, gap: nat, d: nat) {
    d > 0 && (b.cap - b.off - b.len >= gap || b.len - sub <= (d - gap % d) % d)
  }

  /** Whether a call keeps all blocks and right headers: a gap that does not spill, and a copy that appends to a single
      buffer or from the old end on. */
  ghost predicate SafeIn(p: Pack, free: Free, call: Call) {
    && p.Has()
    && match call
       case Widen(off, gap) =>
         forall i: nat, sub: nat | Places(p.bufs, i, sub, off) :: GapStays(p.bufs[i], sub, gap, p.pools[0].databufLen)
       case CopyInto(off, data) =>
         var n, len := |p.Bytes()|, |data|;
         || off > n || off + len <= n
         || if |p.bufs| == 1 then off == n || off + len < 0x1_0000
            else off == n && U16(len) <= Space(p, free, p.pools[|p.pools| - 1])
       case _ => true
  }

  /** The packets in use and the free counts. */
  datatype State = State(packs: seq<Pack>, free: Free)

  function Uses(l: seq<Pool>, q: Pool): nat {
    if l == [] then 0 else (if l[0] == q then 1 else 0) + Uses(l[1..], q)
  }

  /** How many buffers of a pool are in packets. */
  function Load(packs: seq<Pack>, q: Pool): nat {
    if packs == [] then 0 else Uses(packs[0].pools, q) + Load(packs[1..], q)
  }

  /** Every pool's free blocks and buffers in use are as many as before, but for those lost from pool q0. */
  ghost predicate Balanced(was: seq<Pack>, before: Free, now: seq<Pack>, after: Free, q0: set<Pool>, lost: nat) {
    && after.Keys == before.Keys
    && forall q | q in before ::
         after[q] + Load(now, q) + (if q in q0 then lost else 0) == before[q] + Load(was, q)
  }

  /** The packets in front of the n last ones. */
  function Fresh(packs: seq<Pack>, n: nat): seq<Pack>
    requires n <= |packs|
  {
    packs[..|packs| - n]
  }

  /** b has the packets of a, but for the i-th, at its end, and in front of them what a call made of that one. */
  ghost predicate MovesOne(a: State, i: nat, call: Call, lost: nat, b: State)
    requires i < |a.packs|
  {
    var p, others := a.packs[i], Without(a.packs, i);
    && |others| <= |b.packs| && b.packs == Fresh(b.packs, |others|) + others
    && Effect(call, p, a.free, Fresh(b.packs, |others|), lost)
    && Balanced([p], a.free, Fresh(b.packs, |others|), b.free, if p.pools == [] then {} else {p.pools[0]}, lost)
  }

  ghost predicate MovesTwo(a: State, i: nat, j: nat, call: PairCall, b: State)
    requires i < |a.packs| && j < |a.packs| - 1
  {
    var p, rest := a.packs[i], Without(a.packs, i);
    var others := Without(rest, j);
    && |others| <= |b.packs| && b.packs == Fresh(b.packs, |others|) + others
    && PairEffect(call, p, rest[j], a.free, Fresh(b.packs, |others|))
    && Balanced([p, rest[j]], a.free, Fresh(b.packs, |others|), b.free, {}, 0)
  }

  ghost predicate MovesNew(a: State, pool: Pool, header: bool, n: nat, b: State) {
    && |a.packs| <= |b.packs| && b.packs == Fresh(b.packs, |a.packs|) + a.packs
    && NewEffect(pool, header, n, a.free, Fresh(b.packs, |a.packs|))
    && Balanced([], a.free, Fresh(b.packs, |a.packs|), b.free, {}, 0)
  }

  /** One step of a program, on values. */
  ghost predicate Moves(step: Step, a: State, b: State) {
    match step
    case One(i, guarded, call) =>
      if i >= |a.packs| || (guarded && !SafeIn(a.packs[i], a.free, call)) then b == a
      else exists lost: nat :: MovesOne(a, i, call, lost, b)
    case Two(i, j, call) =>
      if i >= |a.packs| || j >= |a.packs| - 1 then b == a else MovesTwo(a, i, j, call, b)
    case New(pool, leading) => MovesNew(a, pool, false, leading, b)
    case NewPacket(pool, userLen) => MovesNew(a, pool, true, userLen, b)
  }

  // The values behind a chain.

  lemma Seen(om: Mbuf, c: seq<Mbuf>)
    requires Packet(om, c)
    ensures var p := PackOf(c);
            && c != [] && p.Has() && |p.bufs| == |p.pools| == |c| && p.bufs == Snaps(c) && p.pools == PoolsOf(c)
            && p.Bytes() == Bytes(c) && p.Head() == om.Snap() && p.Last() == c[|c| - 1].Snap()
            && p.IsPkthdr() == om.IsPkthdr() && p.Header() == om.Header()
            && p.Lead() == om.LeadingSpace() && p.Trail() == c[|c| - 1].TrailingSpace()
            && p.pools[0] == om.pool && p.pools[|c| - 1] == c[|c| - 1].pool && om == c[0]
  {
    hide Linked, Snaps, Sound, Content;
    HeadAt(om, c);
    SnapAt(c, 0);
    SnapAt(c, |c| - 1);
    SoundAt(Snaps(c), 0);
  }

  lemma PoolsSlice(c: seq<Mbuf>, i: nat)
    requires i <= |c|
    ensures PoolsOf(c[i..]) == PoolsOf(c)[i..] && PoolsOf(c[..i]) == PoolsOf(c)[..i]
  {
  }

  lemma PoolsConcat(a: seq<Mbuf>, b: seq<Mbuf>)
    ensures PoolsOf(a + b) == PoolsOf(a) + PoolsOf(b)
  {
  }

  /** Blocks taken from the free list of one pool. */
  lemma PoolsMore(c: seq<Mbuf>, f: seq<Mbuf>, k: nat, q: Pool)
    requires k <= |f| && forall i | 0 <= i < |f| :: f[i].pool == q
    ensures PoolsOf(c + f[..k]) == PoolsOf(c) + Times(q, k) && |c + f[..k]| == |c| + k
  {
  }

  lemma PoolsBehind(om: Mbuf, c: seq<Mbuf>, c': seq<Mbuf>, z: nat, fits: bool)
    requires c != [] && om == c[0] && z <= |c|
    requires c' == if z == 0 then c else if z == |c| then [om] else if fits then c[z..] else [om] + c[z..]
    ensures PoolsOf(c') == FrontPools(PoolsOf(c), z, fits)
  {
    PoolsSlice(c, z);
    PoolsConcat([om], c[z..]);
  }

  /** A chain whose header is p's. */
  lemma HeaderKept(r: Mbuf, c': seq<Mbuf>, p: Pack)
    requires Packet(r, c') && p.Has() && r.Header() == p.Header() && r.pkthdrLen == p.Head().pkthdrLen
    ensures SameHeader(p, PackOf(c')) && PackOf(c').Head().pktLen == r.pktLen && PackOf(c').IsPkthdr() == p.IsPkthdr()
  {
    hide Packet, PackOf, Mbuf.Header, Pack.Header;
    Seen(r, c');
  }

  lemma TrimIs(p: Pack, q: Pack, z: nat)
    requires SameHeader(p, q) && q.Bytes() == p.Bytes() && (p.IsPkthdr() ==> q.Head().pktLen == p.Head().pktLen)
    requires FirstData(p.bufs, z)
    requires q.pools == FrontPools(p.pools, z, z < |p.bufs| && p.bufs[z].off >= p.Head().pkthdrLen)
    ensures FrontTrimmed(p, q)
  {
  }

  /** Success or not, as os_mbuf_copyinto goes about it: n bytes of the rest of the data are appended. */
  lemma CopiedIs(p: Pack, free: Free, off: nat, data: seq<byte>, q: Pack, n: nat)
    requires SameHeader(p, q) && off <= |p.Bytes()| && n <= Beyond(|p.Bytes()|, off, |data|)
    requires var b, r := p.Bytes(), p.pools[|p.pools| - 1]; var rest := Beyond(|b|, off, |data|);
             && n == Min(U16(rest), Space(p, free, r))
             && q.Bytes() == Overwrite(b, off, data[..|data| - rest + n])
             && |q.pools| >= |p.pools| && q.pools == p.pools + Times(r, |q.pools| - |p.pools|)
             && Needed(|q.pools| - |p.pools|, n - p.Trail(), r.databufLen)
             && q.Head().pktLen ==
                if !p.IsPkthdr() then p.Head().pktLen
                else if n == U16(rest) then CopiedLen(p.Head().pktLen, |b|, off, |data|, |p.bufs| == 1)
                else if |p.bufs| == 1 then U16(p.Head().pktLen + n) else p.Head().pktLen
    ensures CopiedInto(p, free, off, data, q)
  {
    hide Pack.Bytes, Pack.Header, Pack.Trail, Times, Needed, CopiedLen, Space, U16, Overwrite;
    var b := p.Bytes();
    CopyComplete(b, off, data[..|data| - Beyond(|b|, off, |data|) + n]);
  }

  /** os_mbuf_widen with its edge buffer, as the method states it. */
  lemma GapIs(p: Pack, free: Free, off: nat, len: uint16, i: nat, sub: nat, q: Pack, lost: nat, gap: seq<byte>)
    requires p.Has() && Places(p.bufs, i, sub, off) && p.pools[0] in free && p.pools[0].databufLen > 0
    requires var d, t := p.pools[0].databufLen, p.bufs[i].len - sub;
             var room := p.bufs[i].cap - p.bufs[i].off - p.bufs[i].len;
             if room < len && len + t > Capacity(free[p.pools[0]], d) then q == p && lost == 0
             else
               && Grows(p, q, len) && |gap| == len && (lost == 0 <==> room >= len || t <= GapRoom(len, d))
               && (if room >= len then q.pools == p.pools && lost == 0
                   else WidenTakes(|q.pools| - |p.pools|, lost, t, len, d))
               && Widened(q.Bytes(), p.Bytes(), off, t, gap, lost == 0, GapRoom(len, d))
    ensures GapMade(p, free, off, len, q, lost)
  {
    hide Pack.Bytes, Grows, Needed, Content;
    assert GapAt(p, free, off, len, i, sub, q, lost);
  }

  lemma GapNone(p: Pack, free: Free, off: nat, len: uint16)
    requires off > |p.Bytes()|
    ensures GapMade(p, free, off, len, p, 0)
  {
  }

  lemma GrowsIs(r: Mbuf, c': seq<Mbuf>, p: Pack, n: int)
    requires Packet(r, c') && p.Has() && r.Header() == p.Header() && r.pkthdrLen == p.Head().pkthdrLen
    requires r.pktLen == if p.IsPkthdr() then U16(p.Head().pktLen + n) else p.Head().pktLen
    ensures Grows(p, PackOf(c'), n)
  {
    hide Packet, PackOf, U16;
    HeaderKept(r, c', p);
  }

  lemma DupIs(p: Pack, free: Free, q: Pack)
    requires p.Has() && q.Has() && Fits(p) && p.pools[0] in free && free[p.pools[0]] >= |p.bufs|
    requires |q.bufs| == |p.bufs| && CopiesOf(p.bufs, q.bufs) && q.Bytes() == p.Bytes()
    requires q.pools == Times(p.pools[0], |p.pools|)
    ensures Duplicated(p, free, [p, q])
  {
    hide Pack.Bytes, Fits, Times;
    assert Alike(p.bufs[0], q.bufs[0]);
  }

  lemma DupNone(p: Pack, free: Free, done: bool)
    requires p.Has() && p.pools[0] in free && (!done ==> !Fits(p) || free[p.pools[0]] < |p.bufs|)
    ensures !done ==> Duplicated(p, free, [p])
  {
    hide Fits;
  }

  lemma SplitNone(p: Pack, free: Free, max: uint16, r: Pool, userLen: nat)
    requires p.Has() && r in free
    ensures var b, d, h := p.Bytes(), r.databufLen, PKTHDR_SIZE + userLen;
            !p.IsPkthdr() || p.Head().pktLen <= max || |b| < max || h > d || h > 0xff || h + max > free[r] * d ==>
              SplitOff(p, free, max, r, userLen, [p])
  {
  }

  lemma SplitIs(p: Pack, free: Free, max: uint16, r: Pool, userLen: nat, f: Pack, q: Pack, z: nat)
    requires p.Has() && f.Has() && r in free && p.IsPkthdr() && p.Head().pktLen > max && SameHeader(p, q)
    requires var b, d, h := p.Bytes(), r.databufLen, PKTHDR_SIZE + userLen;
             && |b| >= max && h <= d && h <= 0xff && h + max <= free[r] * d
             && f.Bytes() == b[..max] && f.Head().pktLen == max && f.IsPkthdr()
             && f.pools == Times(r, |f.pools|) && Needed(|f.pools|, h + max, d)
             && q.Bytes() == b[max..] && q.Head().pktLen == p.Head().pktLen - max
    requires CutIn(p.bufs, max, z)
    requires q.pools == FrontPools(p.pools, z, z < |p.bufs|
                          && p.bufs[z].off + max - |Content(p.bufs[..z])| >= p.Head().pkthdrLen)
    ensures SplitOff(p, free, max, r, userLen, [f, q])
  {
    hide Pack.Bytes, Needed, Content, Times, FrontPools;
  }

  lemma {:induction false} UsesConcat(a: seq<Pool>, b: seq<Pool>, q: Pool)
    ensures Uses(a + b, q) == Uses(a, q) + Uses(b, q)
  {
    if a == [] {
      assert a + b == b;
    } else {
      assert (a + b)[1..] == a[1..] + b;
      UsesConcat(a[1..], b, q);
    }
  }

  lemma {:induction false} LoadConcat(a: seq<Pack>, b: seq<Pack>, q: Pool)
    ensures Load(a + b, q) == Load(a, q) + Load(b, q)
  {
    if a == [] {
      assert a + b == b;
    } else {
      assert (a + b)[1..] == a[1..] + b;
      LoadConcat(a[1..], b, q);
    }
  }

  /** The buffers of a chain that come from a pool. */
  lemma {:induction false} UsesOf(c: seq<Mbuf>, q: Pool)
    requires forall i, j | 0 <= i < j < |c| :: c[i] != c[j]
    ensures Uses(PoolsOf(c), q) == |OfPool(Set(c), q)|
  {
    if c == [] {
      assert OfPool(Set(c), q) == {};
    } else {
      var d := c[1..];
      UsesOf(d, q);
      assert c == [c[0]] + d && c[0] !in d;
      PoolOf({c[0]}, Set(d), q);
      assert Set(c) == {c[0]} + Set(d);
      assert OfPool({c[0]}, q) == if c[0].pool == q then {c[0]} else {};
    }
  }

  // What a reader may conclude from a step.

  /** Freeing a packet takes it out and gives each pool back its buffers; the other packets stay as they are. */
  lemma FreeMoves(a: State, i: nat, b: State)
    requires i < |a.packs| && Moves(Step.One(i, false, Call.FreeChain), a, b)
    ensures b.packs == Without(a.packs, i)
    ensures forall q | q in a.free :: q in b.free && b.free[q] == a.free[q] + Uses(a.packs[i].pools, q)
  {
    var p, others := a.packs[i], Without(a.packs, i);
    var lost: nat :| MovesOne(a, i, Call.FreeChain, lost, b);
    assert Fresh(b.packs, |others|) == [];
    forall q | q in a.free ensures q in b.free && b.free[q] == a.free[q] + Uses(p.pools, q) {
      assert [p][1..] == [];
    }
  }

  /** An append that finds room: the packet is in front now with all the data at its end, and its header counts it. */
  lemma AppendMoves(a: State, i: nat, data: seq<byte>, b: State)
    requires i < |a.packs| && Moves(Step.One(i, false, Call.Append(data)), a, b)
    requires a.packs[i].Has() && |data| <= Space(a.packs[i], a.free, a.packs[i].pools[0])
    ensures b.packs != [] && b.packs[1..] == Without(a.packs, i)
    ensures b.packs[0].Bytes() == a.packs[i].Bytes() + data && Grows(a.packs[i], b.packs[0], |data|)
  {
    hide Pack.Bytes, Grows, Needed, Times, Balanced, Space;
    var others := Without(a.packs, i);
    var lost: nat :| MovesOne(a, i, Call.Append(data), lost, b);
    assert data[..|data|] == data;
    assert b.packs == Fresh(b.packs, |others|) + others;
  }

  /** What a call puts in front of the other packets. */
  function Made(a: State, b: State): seq<Pack>
    requires 0 < |a.packs| <= |b.packs| + 1
  {
    b.packs[..|b.packs| + 1 - |a.packs|]
  }

  /** The bytes after a call, call by call: most keep them, some cut or add at one end, and a split takes them apart. */
  lemma BytesMove(a: State, i: nat, call: Call, b: State)
    requires i < |a.packs| && Moves(Step.One(i, false, call), a, b)
    ensures |a.packs| <= |b.packs| + 1 && b.packs == Made(a, b) + Without(a.packs, i)
    ensures var p, out := a.packs[i].Bytes(), Made(a, b);
            match call
            case Append(data) => |out| == 1 && exists n: nat :: n <= |data| && out[0].Bytes() == p + data[..n]
            case Adj(n) =>
              |out| == 1 && out[0].Bytes() == if n >= 0 then p[Min(n, |p|)..] else p[..Max(0, |p| + n)]
            case Prepend(n) => out == [] || (|out| == 1 && |out[0].Bytes()| == n + |p| && out[0].Bytes()[n..] == p)
            case PrependPullup(n) =>
              out == [] || (|out| == 1 && |out[0].Bytes()| == n + |p| && out[0].Bytes()[n..] == p)
            case CopyInto(off, data) =>
              |out| == 1 && if off > |p| then out[0].Bytes() == p
                            else off <= |out[0].Bytes()| && out[0].Bytes()[..off] == p[..off]
            case Pullup(_) => out == [] || (|out| == 1 && out[0].Bytes() == p)
            case TrimFront => |out| == 1 && out[0].Bytes() == p
            case Widen(off, n) =>
              |out| == 1 && (out[0].Bytes() == p
                             || (off <= |p| && |out[0].Bytes()| >= off + n && out[0].Bytes()[..off] == p[..off]))
            case Dup => |out| > 0 && forall q | q in out :: q.Bytes() == p
            case SplitFrag(max, _, _) =>
              || (|out| == 1 && out[0].Bytes() == p)
              || (|out| == 2 && |out[0].Bytes()| == max && out[0].Bytes() + out[1].Bytes() == p)
            case FreeChain => out == []
  {
    hide Pack.Bytes, Grows, Needed, Times, Balanced, Space, SameHeader, FrontEnds, CopiedLen, Cursors.From, Content,
         Places, Pack.Header, FirstData, FrontPools, CutIn, U16, Fits, Overwrite;
    var others := Without(a.packs, i);
    var lost: nat :| MovesOne(a, i, call, lost, b);
    assert Fresh(b.packs, |others|) == Made(a, b);
  }

  /** Joining two packets joins their bytes; appending from one to the other takes a prefix of the range and leaves the
      other as it is. */
  lemma BytesMoveTwo(a: State, i: nat, j: nat, call: PairCall, b: State)
    requires i < |a.packs| && j < |a.packs| - 1 && Moves(Step.Two(i, j, call), a, b)
    ensures var p, p2 := a.packs[i].Bytes(), Without(a.packs, i)[j].Bytes();
            match call
            case AppendFrom(off, len) =>
              && |b.packs| == |a.packs| && b.packs[1] == Without(a.packs, i)[j]
              && exists n: nat :: n <= len && n <= |Cursors.From(p2, off)|
                                  && b.packs[0].Bytes() == p + Cursors.From(p2, off)[..n]
            case _ => |b.packs| == |a.packs| - 1 && b.packs[0].Bytes() == p + p2
  {
    hide Pack.Bytes, Grows, Needed, Times, Balanced, Space, SameHeader, Cursors.From, Content, Pack.Header;
    var others := Without(Without(a.packs, i), j);
    assert b.packs == Fresh(b.packs, |others|) + others;
  }

  /** A new buffer is an empty packet in front, or there is none and no free block, or it does not fit. */
  lemma NewMoves(a: State, pool: Pool, header: bool, n: nat, b: State)
    requires Moves(if header then Step.NewPacket(pool, n) else Step.New(pool, n), a, b)
    ensures b.packs == a.packs || (|b.packs| == |a.packs| + 1 && b.packs[1..] == a.packs && b.packs[0].Bytes() == [])
    ensures pool in a.free && pool in b.free
    ensures b.packs == a.packs <==>
              || a.free[pool] == 0 || n + (if header then PKTHDR_SIZE else 0) > pool.databufLen
              || (header && n + PKTHDR_SIZE > 0xff)
    ensures b.packs != a.packs ==> b.free[pool] == a.free[pool] - 1
  {
    hide Pack.Bytes;
    assert b.packs == Fresh(b.packs, |a.packs|) + a.packs;
    var out := Fresh(b.packs, |a.packs|);
    if out != [] {
      assert [pool][1..] == [] && Uses([pool], pool) == 1;
      assert out[1..] == [] && Load(out, pool) == 1;
    }
  }
}
