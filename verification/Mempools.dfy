// Memory pools over a flat memory: block addresses, the free list threaded through the blocks, and its checks.
module Mempools {
  import opened Counting

  const OS_OK: int := 0
  const OS_INVALID_PARM: int := 3
  const OS_MEM_NOT_ALIGNED: int := 4
  const OS_ALIGNMENT: nat := 4
  const SPACE: nat := 0x1_0000_0000

  /** uint32_t arithmetic wraps around. */
  function U32(x: nat): (r: nat)
    ensures r < SPACE
  {
    x % SPACE
  }

  /** OS_ALIGN(n, OS_ALIGNMENT) on a uint32_t */
  function TrueBlockSize(n: nat): nat {
    if n % OS_ALIGNMENT == 0 then U32(n) else U32(n + (OS_ALIGNMENT - n % OS_ALIGNMENT))
  }

  /** OS_MEMPOOL_BYTES: the number of bytes a pool needs */
  function MempoolBytes(n: nat, blockSize: nat): nat {
    4 * ((blockSize + (OS_ALIGNMENT - 1)) / OS_ALIGNMENT * n)
  }

  /** The address of the i-th block. */
  function BlockAt(membuf: nat, size: nat, i: nat): nat {
    membuf + i * size
  }

  /** The addresses of the blocks from i on. */
  function BlocksFrom(membuf: nat, size: nat, i: nat, n: nat): (l: seq<nat>)
    requires i <= n
    ensures |l| == n - i && forall k | 0 <= k < |l| :: l[k] == BlockAt(membuf, size, i + k)
    decreases n - i
  {
    if i == n then [] else [BlockAt(membuf, size, i)] + BlocksFrom(membuf, size, i + 1, n)
  }

  /** Following mb_next from `first` through the memory visits l and ends with NULL. */
  ghost predicate Threaded(word: map<nat, nat>, first: nat, l: seq<nat>)
    decreases |l|
  {
    if l == [] then first == 0
    else first == l[0] != 0 && first in word && Threaded(word, word[first], l[1..])
  }

  /** Memory words outside the list do not matter to it. */
  lemma {:induction false} ThreadedFrame(word: map<nat, nat>, first: nat, l: seq<nat>, a: nat, v: nat)
    requires Threaded(word, first, l) && a !in l
    ensures Threaded(word[a := v], first, l)
    decreases |l|
  {
    if l != [] {
      ThreadedFrame(word, word[first], l[1..], a, v);
    }
  }

  lemma BlockNext(membuf: nat, size: nat, i: nat)
    ensures BlockAt(membuf, size, i + 1) == BlockAt(membuf, size, i) + size && BlockAt(membuf, size, 0) == membuf
  {
  }

  lemma MulOrder(a: int, b: int, size: nat)
    ensures a >= b ==> a * size >= b * size
    ensures a > b ==> a * size >= b * size + size
  {
    if a > b {
      assert (a - b - 1) * size >= 0;
      assert a * size == b * size + size + (a - b - 1) * size;
    }
  }

  lemma BlockOrder(membuf: nat, size: nat, i: nat, j: nat)
    requires i <= j
    ensures BlockAt(membuf, size, i) <= BlockAt(membuf, size, j)
    ensures i < j ==> BlockAt(membuf, size, i) + size <= BlockAt(membuf, size, j)
  {
    MulOrder(j, i, size);
  }

  /** An offset inside a block determines the block. */
  lemma BlockOf(membuf: nat, size: nat, i: nat, j: nat, o: nat)
    requires o < size && BlockAt(membuf, size, i) + o == BlockAt(membuf, size, j)
    ensures i == j && o == 0
  {
    if i <= j {
      BlockOrder(membuf, size, i, j);
    } else {
      BlockOrder(membuf, size, j, i);
    }
  }

  /** OS_MEMPOOL_BYTES is exactly the space the blocks take up. */
  lemma BytesExact(membuf: nat, blockSize: nat, n: nat)
    requires 0 < blockSize && 0 < membuf && membuf + MempoolBytes(n, blockSize) <= SPACE && n > 0
    ensures var size := TrueBlockSize(blockSize);
            && blockSize <= size < blockSize + OS_ALIGNMENT && size % OS_ALIGNMENT == 0 && size > 0
            && BlockAt(membuf, size, n) == membuf + MempoolBytes(n, blockSize) && membuf < SPACE
  {
    var q := (blockSize + 3) / 4;
    assert MempoolBytes(n, blockSize) == 4 * (q * n);
    MulOrder(n, 1, q);
    assert blockSize <= 4 * q < blockSize + 4 && 4 * q < SPACE;
    Times4(q, n);
  }

  lemma Times4(q: nat, n: nat)
    ensures n * (4 * q) == 4 * (q * n)
  {
  }

  /** os_memblock_from for a pool of n blocks of true size `size` at membuf */
  function MemblockFrom(membuf: nat, n: nat, size: nat, a: nat): int
    requires membuf < SPACE
  {
    var end := U32(membuf + U32(n * size));
    if a < membuf || a >= end then 0
    else if size == 0 then assert false; 0
    else if (a - membuf) % size != 0 then 0
    else 1
  }

  lemma FromRange(membuf: nat, n: nat, size: nat, a: nat, p: nat)
    requires 0 < membuf < SPACE && 0 < size && p == n * size && membuf + p <= SPACE
    ensures MemblockFrom(membuf, n, size, a) ==
            if membuf <= a < membuf + p < SPACE && (a - membuf) % size == 0 then 1 else 0
  {
    assert U32(p) == p && U32(membuf + p) == if membuf + p == SPACE then 0 else membuf + p;
  }

  /** The check is exact for every address, unless the pool reaches the very end of the address space:
      then the end wraps to 0 and no block is recognised. */
  lemma FromExact(membuf: nat, n: nat, size: nat, a: nat)
    requires 0 < membuf < SPACE && 0 < n && 0 < size && BlockAt(membuf, size, n) <= SPACE
    ensures BlockAt(membuf, size, n) < SPACE ==>
              (MemblockFrom(membuf, n, size, a) == 1 <==> exists i: nat :: i < n && a == BlockAt(membuf, size, i))
    ensures BlockAt(membuf, size, n) == SPACE ==> MemblockFrom(membuf, n, size, a) == 0
    ensures MemblockFrom(membuf, n, size, a) == 0 || MemblockFrom(membuf, n, size, a) == 1
  {
    FromRange(membuf, n, size, a, n * size);
    hide MemblockFrom;
    if membuf <= a < BlockAt(membuf, size, n) && (a - membuf) % size == 0 {
      Quotient(a - membuf, size, n);
      assert a == BlockAt(membuf, size, (a - membuf) / size);
    }
    if i: nat :| i < n && a == BlockAt(membuf, size, i) {
      BlockOrder(membuf, size, i, n);
      MultipleOf(i, size);
    }
  }

  lemma Quotient(d: nat, size: nat, n: nat)
    requires size > 0 && d % size == 0 && d < n * size
    ensures d == d / size * size && 0 <= d / size < n
  {
    assert d == d / size * size + d % size;
    MulOrder(d / size, n, size);
  }

  lemma MultipleOf(i: nat, size: nat)
    requires size > 0
    ensures i * size % size == 0
  {
    var e := i * size / size;
    assert i * size == e * size + i * size % size;
    MulOrder(i, e, size);
    MulOrder(e, i, size);
  }

  /** struct os_mempool together with the memory it manages; addresses are 32-bit numbers and 0 is NULL. */
  class Mempool {
    /** mp_block_size */
    var blockSize: nat
    /** mp_num_blocks */
    var numBlocks: nat
    /** mp_num_free */
    var numFree: nat
    /** mp_min_free */
    var minFree: nat
    /** mp_membuf_addr */
    var membufAddr: nat
    /** the head of the free list */
    var first: nat
    /** the words of memory: for a free block, mb_next at the block's address */
    var word: map<nat, nat>

    constructor ()
    {
      blockSize, numBlocks, numFree, minFree, membufAddr, first, word := 0, 0, 0, 0, 0, 0, map[];
    }

    /** OS_MEMPOOL_TRUE_BLOCK_SIZE */
    function Size(): nat
      reads `blockSize
    {
      TrueBlockSize(blockSize)
    }

    /** The pool has been set up over a buffer that lies within the address space. */
    ghost predicate Placed()
      reads `blockSize, `numBlocks, `membufAddr
    {
      && 0 < numBlocks < 0x1_0000 && 0 < blockSize && 0 < membufAddr
      && membufAddr + MempoolBytes(numBlocks, blockSize) <= SPACE
    }

    /** a is the address of one of the pool's blocks. */
    ghost predicate IsBlock(a: nat)
      reads `blockSize, `numBlocks, `membufAddr
    {
      exists i: nat :: i < numBlocks && a == BlockAt(membufAddr, Size(), i)
    }

    /** l is the free list: blocks of the pool, each once, counted by mp_num_free. */
    ghost predicate FreeList(l: seq<nat>)
      reads this
    {
      && Threaded(word, first, l) && |l| == numFree
      && (forall i | 0 <= i < |l| :: IsBlock(l[i]))
      && (forall i, j | 0 <= i < j < |l| :: l[i] != l[j])
    }

    /** The address of the i-th block of this pool. */
    ghost function Addr(i: nat): nat
      reads `blockSize, `membufAddr
    {
      BlockAt(membufAddr, Size(), i)
    }

    /** In memory w, each of the first m blocks leads to the next. */
    ghost predicate Links(w: map<nat, nat>, m: nat)
      reads `blockSize, `membufAddr
    {
      forall k | 0 <= k < m :: Addr(k) in w && w[Addr(k)] == Addr(k + 1)
    }

    /** Writing one block's link leaves the earlier ones alone. */
    lemma LinkSet(w: map<nat, nat>, m: nat, v: nat)
      requires Placed() && Links(w, m)
      ensures Links(w[Addr(m) := v], m) && (v == Addr(m + 1) ==> Links(w[Addr(m) := v], m + 1))
    {
      hide Mempool.Addr;
      forall k | 0 <= k < m ensures Addr(k) != Addr(m) {
        Apart(k, m);
      }
    }

    lemma Apart(j: nat, k: nat)
      requires Placed() && j != k
      ensures Addr(j) != Addr(k)
    {
      hide TrueBlockSize, BlockAt, MempoolBytes;
      BytesExact(membufAddr, blockSize, numBlocks);
      if Addr(j) == Addr(k) {
        BlockOf(membufAddr, Size(), j, k, 0);
      }
    }

    /** All links set and the last one NULL: the free list is the list of all blocks. */
    lemma AllThreaded(k: nat, w: map<nat, nat>)
      requires Placed() && k < numBlocks && Links(w, numBlocks - 1) && Addr(numBlocks - 1) in w
          && w[Addr(numBlocks - 1)] == 0
      ensures Threaded(w, Addr(k), BlocksFrom(membufAddr, Size(), k, numBlocks))
      decreases numBlocks - k
    {
      hide TrueBlockSize, MempoolBytes;
      var l := BlocksFrom(membufAddr, Size(), k, numBlocks);
      assert l[0] == Addr(k) != 0;
      if k + 1 < numBlocks {
        AllThreaded(k + 1, w);
      }
      assert l[1..] == BlocksFrom(membufAddr, Size(), k + 1, numBlocks);
    }

    /** The full free list: every block once, in address order. */
    ghost function AllBlocks(): seq<nat>
      reads this
    {
      BlocksFrom(membufAddr, Size(), 0, numBlocks)
    }

    lemma FullList()
      requires Placed() && numFree == numBlocks && Threaded(word, first, AllBlocks())
      ensures FreeList(AllBlocks())
    {
      hide TrueBlockSize, BlockAt;
      var l := AllBlocks();
      forall i, j | 0 <= i < j < |l| ensures l[i] != l[j] {
        Apart(i, j);
      }
      forall i | 0 <= i < |l| ensures IsBlock(l[i]) {
        assert l[i] == Addr(i);
      }
    }

    /** os_mempool_init */
    method Init(blocks: nat, size: nat, membuf: nat) returns (rc: int)
      requires blocks < 0x1_0000 && size < SPACE && membuf < SPACE
      requires blocks > 0 ==> membuf + MempoolBytes(blocks, size) <= SPACE
      modifies this
      ensures rc == if size == 0 || (membuf == 0
          && blocks != 0) then OS_INVALID_PARM else if membuf % OS_ALIGNMENT != 0 then OS_MEM_NOT_ALIGNED else OS_OK
      ensures rc != OS_OK ==> unchanged(this)
      ensures rc == OS_OK ==>
          && blockSize == size && numBlocks == blocks && membufAddr == membuf && numFree == minFree == blocks
          && first == membuf
      ensures rc == OS_OK && blocks > 0 ==> Placed() && FreeList(AllBlocks())
    {
      hide TrueBlockSize, MempoolBytes, BlockAt, BlocksFrom, Threaded, FreeList, Links;
      if size == 0 {
        return OS_INVALID_PARM;
      }
      if membuf == 0 && blocks != 0 {
        return OS_INVALID_PARM;
      }
      if membuf != 0 {
        if membuf % OS_ALIGNMENT != 0 {
          return OS_MEM_NOT_ALIGNED;
        }
      }
      blockSize, numFree, minFree, numBlocks, membufAddr, first := size, blocks, blocks, blocks, membuf, membuf;
      if blocks > 0 {
        var trueBlockSize := Size();
        var blockAddr, blockPtr := membuf, membuf;
        var i := 1;
        BlockNext(membufAddr, Size(), 0);
        NoLinks(word);
        while i < blocks
          invariant 1 <= i <= blocks && blockAddr == blockPtr == Addr(i - 1)
          invariant Links(word, i - 1)
          invariant blockSize == size && numBlocks == blocks && membufAddr == membuf
              && numFree == minFree == blocks && first == membuf
        {
          BlockNext(membufAddr, Size(), i - 1);
          blockAddr := blockAddr + trueBlockSize;
          LinkSet(word, i - 1, blockAddr);
          word := word[blockPtr := blockAddr];
          blockPtr := blockAddr;
          i := i + 1;
        }
        LinkSet(word, blocks - 1, 0);
        word := word[blockPtr := 0];
        AllThreaded(0, word);
        FullList();
      }
      rc := OS_OK;
    }

    /** os_mempool_clear; a pool without blocks must still have a buffer, for the source writes a link into it. */
    method Clear()
      requires if numBlocks == 0 then membufAddr != 0 else Placed()
      modifies `numFree, `minFree, `first, `word
      ensures numFree == minFree == numBlocks && first == membufAddr
      ensures numBlocks > 0 ==> FreeList(AllBlocks())
      ensures numBlocks == 0 ==> word == old(word)[membufAddr := 0]
    {
      hide TrueBlockSize, MempoolBytes, BlockAt, BlocksFrom, Threaded, FreeList, Links;
      var trueBlockSize := Size();
      numFree, minFree, first := numBlocks, numBlocks, membufAddr;
      var blockAddr, blockPtr := membufAddr, membufAddr;
      var blocks := numBlocks;
      BlockNext(membufAddr, Size(), 0);
      NoLinks(word);
      while blocks > 1
        invariant if numBlocks == 0 then blocks == 0 && blockPtr == membufAddr && word == old(word)
                  else 1 <= blocks <= numBlocks
        invariant numBlocks > 0 ==> blockAddr == blockPtr == Addr(numBlocks - blocks) && Links(word, numBlocks - blocks)
        invariant numFree == minFree == numBlocks && first == membufAddr
      {
        BlockNext(membufAddr, Size(), numBlocks - blocks);
        blockAddr := blockAddr + trueBlockSize;
        LinkSet(word, numBlocks - blocks, blockAddr);
        word := word[blockPtr := blockAddr];
        blockPtr := blockAddr;
        blocks := blocks - 1;
      }
      if numBlocks > 0 {
        LinkSet(word, numBlocks - 1, 0);
      }
      word := word[blockPtr := 0];
      if numBlocks > 0 {
        AllThreaded(0, word);
        FullList();
      }
    }

    lemma NoLinks(w: map<nat, nat>)
      ensures Links(w, 0)
    {
    }

    /** os_memblock_get */
    method Get(ghost l: seq<nat>) returns (block: nat)
      requires Placed() && FreeList(l)
      modifies `numFree, `minFree, `first
      ensures if l == [] then block == 0 && FreeList(l) && numFree == 0 && minFree == old(minFree)
              else block == l[0] && FreeList(l[1..])
                   && minFree == if old(minFree) > numFree then numFree else old(minFree)
    {
      hide TrueBlockSize, MempoolBytes, BlockAt;
      block := 0;
      if numFree != 0 {
        block := first;
        first := word[block];
        numFree := numFree - 1;
        if minFree > numFree {
          minFree := numFree;
        }
      }
    }

    /** os_memblock_put of a block that is not free */
    method Put(ghost l: seq<nat>, block: nat) returns (rc: int)
      requires Placed() && FreeList(l) && block !in l && (block == 0 || IsBlock(block))
      modifies `numFree, `first, `word
      ensures rc == if block == 0 then OS_INVALID_PARM else OS_OK
      ensures if block == 0 then unchanged(this) else FreeList([block] + l) && numFree <= numBlocks
    {
      hide TrueBlockSize, MempoolBytes, BlockAt;
      if block == 0 {
        return OS_INVALID_PARM;
      }
      ThreadedFrame(word, first, l, block, first);
      word := word[block := first];
      first := block;
      numFree := numFree + 1;
      assert ([block] + l)[1..] == l;
      NotTooMany([block] + l);
      rc := OS_OK;
    }

    /** Distinct blocks of the pool are at most mp_num_blocks many: the free count never needs the check the
        source leaves out. */
    lemma NotTooMany(l: seq<nat>)
      requires (forall i | 0 <= i < |l| :: IsBlock(l[i])) && (forall i, j | 0 <= i < j < |l| :: l[i] != l[j])
      ensures |l| <= numBlocks
    {
      hide TrueBlockSize, MempoolBytes, BlockAt;
      var all := Addrs(numBlocks);
      ImageBound(numBlocks);
      ElementsDistinct(l);
      var mine := Elements(l);
      forall a | a in mine ensures a in all {
        var k :| 0 <= k < |l| && l[k] == a;
        var i: nat :| i < numBlocks && a == BlockAt(membufAddr, Size(), i);
        assert a == Addr(i);
      }
      SubsetCount(mine, all);
    }

    ghost function Addrs(n: nat): set<nat>
      reads `blockSize, `membufAddr
    {
      set i | 0 <= i < n :: Addr(i)
    }

    lemma {:induction false} ImageBound(n: nat)
      ensures |Addrs(n)| <= n
    {
      if n > 0 {
        ImageBound(n - 1);
        assert Addrs(n) == Addrs(n - 1) + {Addr(n - 1)};
      }
    }

    /** os_mempool_is_sane: true in every state the calls can reach, unless the pool ends at the end of the
        address space. */
    method IsSane(ghost l: seq<nat>) returns (r: bool)
      requires Placed() && FreeList(l)
      ensures r <==> l == [] || membufAddr + MempoolBytes(numBlocks, blockSize) < SPACE
    {
      hide TrueBlockSize, MempoolBytes, BlockAt, MemblockFrom, U32;
      BytesExact(membufAddr, blockSize, numBlocks);
      var block := first;
      ghost var k := 0;
      while block != 0
        invariant k <= |l| && Threaded(word, block, l[k..])
        invariant k > 0 ==> BlockAt(membufAddr, Size(), numBlocks) < SPACE
        decreases |l| - k
      {
        FromExact(membufAddr, numBlocks, Size(), block);
        assert block == l[k..][0] == l[k] && IsBlock(l[k]);
        if MemblockFrom(membufAddr, numBlocks, Size(), block) == 0 {
          return false;
        }
        assert l[k..][1..] == l[k + 1..];
        block := word[block];
        k := k + 1;
      }
      return true;
    }

    /** Blocks in the caller's hands: with the free ones they make up the pool, each block once. */
    ghost predicate Split(l: seq<nat>, held: seq<nat>)
      reads this
    {
      && FreeList(l) && |l| + |held| == numBlocks
      && (forall i | 0 <= i < |held| :: IsBlock(held[i]) && held[i] !in l)
      && (forall i, j | 0 <= i < j < |held| :: held[i] != held[j])
    }

    /** The owner of a block writes a four-byte word inside it: it meets no link of a free block. */
    method Use(ghost l: seq<nat>, ghost held: seq<nat>, block: nat, offset: nat, value: nat)
      requires Placed() && Split(l, held) && block in held && offset + 4 <= Size()
      modifies `word
      ensures Split(l, held) && word == old(word)[block + offset := value]
      ensures forall k | 0 <= k < |l| :: l[k] + 4 <= block + offset || block + offset + 4 <= l[k]
    {
      hide TrueBlockSize, MempoolBytes, BlockAt;
      forall k | 0 <= k < |l| ensures l[k] + 4 <= block + offset || block + offset + 4 <= l[k] {
        assert IsBlock(block) && IsBlock(l[k]);
        var i: nat :| i < numBlocks && block == BlockAt(membufAddr, Size(), i);
        var j: nat :| j < numBlocks && l[k] == BlockAt(membufAddr, Size(), j);
        if i <= j {
          BlockOrder(membufAddr, Size(), i, j);
        } else {
          BlockOrder(membufAddr, Size(), j, i);
        }
      }
      ThreadedFrame(word, first, l, block + offset, value);
      word := word[block + offset := value];
    }

    /** A get by the user of the pool. */
    method TakeOne(ghost l: seq<nat>, held: seq<nat>) returns (held': seq<nat>, ghost l': seq<nat>)
      requires Placed() && Split(l, held) && minFree <= numFree
      modifies `numFree, `minFree, `first
      ensures Split(l', held') && minFree == if old(minFree) > numFree then numFree else old(minFree)
      ensures Stock(l', held') == After1(Take, Stock(l, held))
    {
      hide TrueBlockSize, MempoolBytes, BlockAt, Threaded;
      l', held' := l, held;
      if l != [] {
        BlocksNotNull(l[0]);
      }
      var b := Get(l);
      if b != 0 {
        l', held' := l[1..], held + [b];
      }
    }

    /** A put by the user of the pool. */
    method GiveOne(ghost l: seq<nat>, held: seq<nat>, k: nat) returns (held': seq<nat>, ghost l': seq<nat>)
      requires Placed() && Split(l, held) && k < |held|
      modifies `numFree, `first, `word
      ensures Split(l', held') && numFree == old(numFree) + 1
      ensures Stock(l', held') == After1(Give(k), Stock(l, held))
    {
      hide TrueBlockSize, MempoolBytes, BlockAt, Threaded;
      var b := held[k];
      BlocksNotNull(b);
      var rc := Put(l, b);
      l', held' := [b] + l, held[..k] + held[k + 1..];
    }

    lemma BlocksNotNull(a: nat)
      requires Placed() && IsBlock(a)
      ensures a != 0
    {
    }

    /** One action of the user of the pool. */
    method DoAct(act: Act, ghost l: seq<nat>, held: seq<nat>) returns (held': seq<nat>, ghost l': seq<nat>)
      requires Placed() && Split(l, held) && minFree <= numFree
      modifies `numFree, `minFree, `first, `word
      ensures Split(l', held') && Stock(l', held') == After1(act, Stock(l, held))
      ensures numFree == |l'| && minFree == if old(minFree) > numFree then numFree else old(minFree)
    {
      hide TrueBlockSize, MempoolBytes, BlockAt, Threaded;
      held', l' := held, l;
      match act {
        case Take =>
          held', l' := TakeOne(l, held);
        case Give(k) =>
          if k < |held| {
            held', l' := GiveOne(l, held, k);
          }
        case Write(k, offset, value) =>
          if k < |held| && offset + 4 <= Size() {
            Use(l, held, held[k], offset, value);
          }
      }
    }

    /** Any run of gets, puts of held blocks and writes to held blocks keeps the pool whole and the low-water mark
        right; blocks come and go in the order of a stack. The sanity check passes throughout, unless the pool ends at
        the end of the address space. */
    method Run(acts: seq<Act>, ghost l: seq<nat>)
      returns (held: seq<nat>, sane: bool, ghost l': seq<nat>, ghost counts: seq<nat>)
      requires Placed() && FreeList(l) && |l| == numBlocks == minFree
      modifies `numFree, `minFree, `first, `word
      ensures Split(l', held)
      ensures sane <==> membufAddr + MempoolBytes(numBlocks, blockSize) < SPACE || NoneLeft(counts)
      ensures Stock(l', held) == After(acts, l) && counts == FreeCounts(acts, l)
      ensures numFree == |l'| && minFree in counts && forall i | 0 <= i < |counts| :: minFree <= counts[i]
    {
      held, sane, l', counts := [], true, l, [numFree];
      assert Split(l, held) && minFree == numFree && NoneLeft(counts) && After([], l) == Stock(l, [])
          && counts == FreeCounts([], l);
      hide TrueBlockSize, MempoolBytes, BlockAt, FreeList, Threaded, Mempool.Split, After, After1, FreeCounts,
           NoneLeft;
      var n := 0;
      while n < |acts|
        invariant n <= |acts| && Placed() && Split(l', held)
        invariant sane <==> membufAddr + MempoolBytes(numBlocks, blockSize) < SPACE || NoneLeft(counts)
        invariant Stock(l', held) == After(acts[..n], l) && counts == FreeCounts(acts[..n], l)
        invariant minFree <= numFree == |l'| && minFree in counts
        invariant forall i | 0 <= i < |counts| :: minFree <= counts[i]
      {
        held, l' := DoAct(acts[n], l', held);
        AfterNext(acts, n, l);
        NoneLeftNext(counts, numFree);
        counts := counts + [numFree];
        var ok := IsSane(l');
        sane := sane && ok;
        n := n + 1;
      }
      assert acts[..n] == acts;
    }
  }

  /** What a user of a pool may do: take a block, give the k-th held one back, write a word into it. */
  datatype Act = Take | Give(k: nat) | Write(k: nat, offset: nat, value: nat)

  /** The free list and the blocks in the user's hands. */
  datatype Stock = Stock(free: seq<nat>, held: seq<nat>)

  function After1(act: Act, s: Stock): Stock {
    match act
    case Take => if s.free == [] then s else Stock(s.free[1..], s.held + [s.free[0]])
    case Give(k) => if k < |s.held| then Stock([s.held[k]] + s.free, s.held[..k] + s.held[k + 1..]) else s
    case Write(_, _, _) => s
  }

  /** Who has which block after some actions, when at first all blocks, in the order l, are free. */
  function After(acts: seq<Act>, l: seq<nat>): Stock {
    if acts == [] then Stock(l, []) else After1(acts[|acts| - 1], After(acts[..|acts| - 1], l))
  }

  /** The numbers of free blocks at first and after each action. */
  function FreeCounts(acts: seq<Act>, l: seq<nat>): seq<nat> {
    if acts == [] then [|l|] else FreeCounts(acts[..|acts| - 1], l) + [|After(acts, l).free|]
  }

  /** The pool ran empty with the first action and stayed empty. */
  ghost predicate NoneLeft(counts: seq<nat>) {
    forall i | 1 <= i < |counts| :: counts[i] == 0
  }

  lemma NoneLeftNext(counts: seq<nat>, n: nat)
    requires counts != []
    ensures NoneLeft(counts + [n]) <==> NoneLeft(counts) && n == 0
  {
    assert (counts + [n])[|counts|] == n;
    assert forall i | 0 <= i < |counts| :: counts[i] == (counts + [n])[i];
  }

  lemma AfterNext(acts: seq<Act>, n: nat, l: seq<nat>)
    requires n < |acts|
    ensures After(acts[..n + 1], l) == After1(acts[n], After(acts[..n], l))
    ensures FreeCounts(acts[..n + 1], l) == FreeCounts(acts[..n], l) + [|After(acts[..n + 1], l).free|]
  {
    assert acts[..n + 1][..n] == acts[..n];
  }

  /** The block given back last is the next to be taken, whichever of the held ones it was: taking and giving undo
      each other, but for the order in which the user holds the blocks. Writing to a block moves none. */
  lemma TakeGive(s: Stock, k: nat, offset: nat, value: nat)
    ensures s.free != [] ==> After1(Give(|s.held|), After1(Take, s)) == s
    ensures k < |s.held| ==>
        After1(Take, After1(Give(k), s)) == Stock(s.free, s.held[..k] + s.held[k + 1..] + [s.held[k]])
    ensures After1(Write(k, offset, value), s) == s && (k >= |s.held| ==> After1(Give(k), s) == s)
    ensures s.free == [] ==> After1(Take, s) == s
  {
  }
}
