# Buffers, pools and queues under the NimBLE host

This project models the porting layer that carries every packet of the Bluetooth host: chains of fixed-size
memory buffers (`os_mbuf`), the block pools they come from (`os_mempool`), packet fragmentation (`mem_split_frag`),
the hand-off of packets through a packet queue and an event queue, and the in-place command line splitter of the shell.

**Buffers and chains.** `Mbufs.Mbuf` has the fields of `struct os_mbuf`; its data area is part of the buffer, the packet
header occupies the first `pkthdrLen` bytes of it and the data lies at `off`. `Mbufs.Pool` is `os_mbuf_pool` together
with its `os_mempool`. A packet is a chain of buffers; methods take the list of its buffers as a ghost argument `c`
and the pools `ps` in play. `ps` maps each pool to a record of the free counts it has had, and `World(ps)`, which every
operation keeps, says that the pools are in order and that the record goes on from there: taking any earlier record
for `ps`, the contracts say that the low-water marks never rise and are the least counts seen.
`Bytes(c)` is the flat byte sequence the packet stands for, `Packet(om, c)` says that `om` heads the chain `c` and that
its buffers are well formed, `Owned(c, ps)` that none of them is free, `FreeBlocks(ps)` is the set of free blocks, and
`Counted(c)` that the header's length field is the length of `Bytes(c)` in 16 bits.

A chain list is the value of a moment: every operation says what the new list is, what bytes it holds, what the header
then says, and that free blocks and blocks in chains add up to what they were.
`Buf` is the value of one buffer, used to state what stays the same. The packet length of the header is the field
`pktLen`; the first bytes of the data area stand for the header but do not encode it a second time.

Many small lemmas restate one fact with the definitions in view, so that the methods that use them can hide the
definitions and stay quick to verify.

**Runs.** `Effects.Pack` is the value of a packet, and a `State` the packets in use with the free counts of the pools.
`Effects.Moves` says what every call makes of a state, in terms of bytes, headers and counts; `Systems.System.Run` moves
by it, step by step, besides keeping every block accounted for.

**Failure.** Failing calls are part of every contract, and each contract says exactly when the call fails: in terms of
the bytes there are, the room in the buffers and the number of free blocks.

**Header length.** `omp_len` is a 16-bit field; it is modelled with its wrap-around (`U16`), so no operation needs a
bound on the packet's length. A statement about `U16(n)` is one about n for packets below 65536 bytes.

**Concurrency.** `Wakeups` is a step system in which every test, set, send, receive and clear is a step of its own and
any number of producers and one consumer interleave freely. `EventQueues` holds the same code as classes, for calls
that do not overlap.

Files: `ByteSeqs`, `Counting`, `Bufs` (values), `Mbufs` (classes, chains, pools), `Appending`, `Cursors`, `ChainCopy`,
`Shapes`, `Trimming`, `Prepending`, `Pullups`, `Widening`, `Overwriting`, `Joining`, `Spans`, `Packing`,
`Duplicating`, `Pieces`, `Fragments` (operations), `Effects` (what each call does, on values), `Runs`, `Systems`
(whole runs), `Shortfalls` (failing inputs), `Mempools`, `PoolRefinement` (the pool in memory), `EventQueues`,
`Wakeups`, `Tokenizer`.

Some places in which the code does less than its comments say are stated with their exact conditions, each with an
input or a run that shows it:

- `os_mbuf_widen` loses bytes and blocks when the moved tail spills (`Widening.Widen`, `Widening.WidenLoses`;
  `Shortfalls.WidenSpills`).
- `os_mbuf_copyinto` can leave the header too small (`Overwriting.HeaderAfterCopy`; `Shortfalls.CopyMiscounts`), and it
  cuts off what reaches 65536 bytes or more past the old end (`Overwriting.CopyComplete`; `Shortfalls.CopyCutsOff`).
- `os_mbuf_pack_chains` can leave an empty buffer at the end (`Packing.PackChains`, `Spans.OneSize`;
  `Shortfalls.PackLeavesEmpty`).
- The assertion in `ble_npl_eventq_put` always holds exactly if there is at most one producer
  (`Wakeups.SendsSucceedIff`; a failing send: `Wakeups.SendFails`).
- `os_memblock_from` recognises no block of a pool that ends at the very end of the address space
  (`Mempools.FromExact`; `Shortfalls.LastInSpace`).

## Model

| member | source | states |
|---|---|---|
| `Mbufs.Pool.constructor` | porting/nimble/src/mem.c:206-224 | a new pool with n new blocks, all free and different; free count and low-water mark n, where the record starts |
| `Mbufs.Pool.BlockGet` | porting/nimble/src/os_mempool.c:330-367 | takes the first free block, or none when there is none; keeps the free count equal to the list's length and the low-water mark the least count seen |
| `Mbufs.Pool.BlockPut` | porting/nimble/src/os_mempool.c:369-397 | puts a block in front of the free list, counter and low-water mark still right |
| `Prepending.HeadGeometry` | porting/nimble/include/os/os_mbuf.h:181-196 | in a well-formed packet the leading space is what lies between header and data, and is never negative |
| `Mbufs.Get` | porting/nimble/src/os_mbuf.c:242-270 | a well-formed empty buffer with arbitrary data area, or NULL exactly when the leading space does not fit or the pool is empty; nothing else changes |
| `Mbufs.GetPkthdr` | porting/nimble/src/os_mbuf.c:272-303 | an empty packet with a header and length 0; NULL exactly when the header does not fit a buffer or 255 bytes, or the pool is empty |
| `Mbufs.Free` | porting/nimble/src/os_mbuf.c:305-324 | the buffer goes to the front of its own pool's list |
| `Mbufs.FreeChain` | porting/nimble/src/os_mbuf.c:326-350 | every buffer of the chain is free afterwards, once, each in its own pool |
| `Mbufs.CopyPkthdr` | porting/nimble/src/os_mbuf.c:359-368 | the new buffer carries the same header bytes, user header included, and the same length field |
| `Appending.Append` | porting/nimble/src/os_mbuf.c:384-456 | adds exactly the longest prefix of the data that the last buffer and the free blocks can take; 0 iff that is all of it; the header grows by that prefix even on failure; new buffers are the first free blocks, exactly as many as needed |
| `Cursors.Off` | porting/nimble/src/os_mbuf.c:531-557 | finds the buffer and position of an offset; NULL exactly when the packet is shorter |
| `Cursors.CopyData` | porting/nimble/src/os_mbuf.c:559-591 | copies the range out, or as much of it as there is; 0 iff the range lies inside the packet; a negative length copies nothing |
| `Cursors.Cmpf` | porting/nimble/src/os_mbuf.c:666-705 | compares as if the packet were flat, however it is split into buffers; 16-bit position included |
| `Cursors.Cmpm` | porting/nimble/src/os_mbuf.c:707-761 | compares ranges of two packets as if both were flat, for any two ways to split them |
| `Cursors.CompareZero` | porting/nimble/src/os_mbuf.c:707-761 | the answer is 0 exactly when both ranges lie inside their packets and are equal |
| `Cursors.CompareFirst` | porting/nimble/src/os_mbuf.c:707-761 | any other answer is decided by the first place where the bytes differ or one packet ends |
| `Cursors.CompareChunk` | porting/nimble/src/os_mbuf.c:747-759 | one block comparison stands for as many single steps |
| `Cursors.CmpmAgreesWithCmpf` | porting/nimble/src/os_mbuf.c:666-761 | comparing with a packet's range gives what comparing with a flat copy of it gives |
| `ChainCopy.AppendFrom` | porting/nimble/src/os_mbuf.c:458-485 | appends as much of the source range as exists and fits, in exactly as many new buffers as needed; which of the three return codes, exactly; source unchanged |
| `ChainCopy.AppendedAgrees` | porting/nimble/src/os_mbuf.c:458-485 | after success, reading the end of the destination gives what reading the source range gives |
| `Trimming.Adj` | porting/nimble/src/os_mbuf.c:593-664 | removes bytes from the front or from the end, clamped to the packet; what the header says afterwards, right or not before; dropped buffers freed once, and only from the end, down to the last one that keeps data unless the last buffer alone is shortened |
| `Trimming.AdjHead` | porting/nimble/src/os_mbuf.c:602-618 | the front loop: data pointers move across buffers, none is freed, header counts down; of every buffer, how much of its data goes and where the rest lies |
| `Trimming.AdjTail` | porting/nimble/src/os_mbuf.c:619-663 | the tail part with its three loops: either the last buffer is shortened and the header counts down, or the chain ends in the buffer where the packet is to end and the header is set |
| `Trimming.TrimBothEnds` | porting/nimble/src/os_mbuf.c:593-664 | trimming the front and then the end equals one slice |
| `Trimming.TrimFront` | porting/nimble/src/os_mbuf.c:1028-1071 | bytes, header bytes and length survive; says exactly which chain results: empty front buffers freed, head replaced only when the first buffer with data has room for the header |
| `Trimming.HandOver` | porting/nimble/src/os_mbuf.c:1057-1068 | copying the header into another buffer leaves that buffer's data alone |
| `Prepending.Prepend` | porting/nimble/src/os_mbuf.c:763-814 | len new bytes in front of the old ones, header bytes moved to the new head, header length grown; NULL exactly when leading space and all free blocks together are too small, and then everything is freed |
| `Prepending.OneRound` | porting/nimble/src/os_mbuf.c:769-811 | one round: leading space used, then a new head with the header moved into it |
| `Pullups.Pullup` | porting/nimble/src/os_mbuf.c:963-1026 | same bytes and header, at least len of them in the head; NULL, exactly, when bytes are missing, or they do not fit where the head's data starts and no new head can be had; the head itself is used whenever they fit, and then no block is taken; which buffers remain and which are free again; after NULL every buffer is back in its pool |
| `Pullups.PullLoop` | porting/nimble/src/os_mbuf.c:1001-1016 | the copy loop collects bytes in front of the rest and ends, in the buffer that the last byte asked for is in |
| `Pullups.FrontEndsOnce` | porting/nimble/src/os_mbuf.c:1001-1016 | the place where the copy loop stops is the only one there is |
| `Pullups.PrependPullup` | porting/nimble/src/os_mbuf.c:816-830 | prepending and making the first len bytes contiguous, with the exact condition for NULL |
| `Pullups.PullupObj` | porting/nimble/src/mem.c:315-324 | on success the object lies in one piece at the returned place |
| `Widening.Widen` | porting/nimble/src/os_mbuf.c:1073-1158 | a gap at the offset and a grown header; exact conditions for both errors, which change nothing; bytes and blocks are all kept iff the gap fits the edge buffer or its tail fits behind the gap, and otherwise exactly which bytes remain; how many buffers the gap takes and how many are lost, exactly |
| `Widening.WidenLoses` | porting/nimble/src/os_mbuf.c:1138-1151 | whenever bytes are lost the packet is shorter than its old length plus the gap, by exactly what did not fit behind the gap |
| `Widening.MakeGap` | porting/nimble/src/os_mbuf.c:1106-1136 | the gap chain: as many buffers as needed, or NULL with all of them freed |
| `Widening.MoveUp` | porting/nimble/src/os_mbuf.c:1092-1099 | moving a tail up inside a buffer keeps both parts |
| `Shortfalls.Spill` | porting/nimble/src/os_mbuf.c:1138-1151 | a packet in one full buffer for which widen answers 0, 24 of 26 bytes remain, the header says 26, and a block is in no packet and not free |
| `Shortfalls.WidenSpills` | porting/nimble/src/os_mbuf.c:1138-1151 | such a packet can be built from a new pool with append, and then it happens |
| `Overwriting.CopyInto` | porting/nimble/src/os_mbuf.c:832-887 | overwrites from the offset on and extends, in exactly as many new buffers as needed; exact return code; on lack of buffers a prefix is written; what the header then says, right or not before |
| `Overwriting.WriteLoop` | porting/nimble/src/os_mbuf.c:848-872 | the overwriting loop: existing bytes replaced in place, up to the packet's end |
| `Overwriting.HeaderAfterCopy` | porting/nimble/src/os_mbuf.c:880-884 | a right header stays right iff nothing is appended, the chain is one buffer, or writing starts at the old end; for several buffers extended from inside it becomes the larger of the old length and the offset plus what was appended |
| `Overwriting.HeaderByCases` | porting/nimble/src/os_mbuf.c:874-887 | the header for any old value, case by case: unchanged, counted up first in a single buffer, or only raised to offset plus appended length |
| `Overwriting.CopyComplete` | porting/nimble/src/os_mbuf.c:874-878 | success means all of the source was written iff less than 65536 bytes lie past the old end |
| `Shortfalls.Miscount` | porting/nimble/src/os_mbuf.c:874-884 | a packet in two buffers for which copyinto answers 0, everything is written, and the header says 4 of 6 bytes |
| `Shortfalls.CopyMiscounts` | porting/nimble/src/os_mbuf.c:874-884 | such a packet can be built from a new pool with append, and then it happens |
| `Shortfalls.CutOff` | porting/nimble/src/os_mbuf.c:874-878 | 65536 bytes copied to the end of any packet: copyinto answers 0 and the packet is as before |
| `Shortfalls.CopyCutsOff` | porting/nimble/src/os_mbuf.c:874-878 | such a call on a packet built from a new pool |
| `Joining.Concat` | porting/nimble/src/os_mbuf.c:889-923 | one chain with the bytes of both, second header dropped, first header counted up from the second header or its buffers |
| `Packing.PackChains` | porting/nimble/src/os_mbuf.c:1160-1245 | bytes of the first packet then of the second; no buffer has leading space, all but the last are full; the last is empty exactly if the one-pass rule `Spans.EmptyLast` on the old buffers' sizes says so; what the header then says, right or not before; freed buffers are exactly those no longer in the chain |
| `Packing.Turn` | porting/nimble/src/os_mbuf.c:1206-1232 | one turn of the copying loop with the freeing loop in it keeps bytes, packed buffers and the answer to whether an empty buffer stays |
| `Spans.TurnKeeps` | porting/nimble/src/os_mbuf.c:1206-1232 | the same on sizes: moving bytes up and dropping the empty buffers behind does not change the outcome of the rule |
| `Spans.NoneEmpty` | porting/nimble/src/os_mbuf.c:1219-1232 | without empty buffers to begin with, none is left at the end |
| `Spans.OneSize` | porting/nimble/src/os_mbuf.c:1219-1232 | with buffers of one size and the empty ones behind the data, one stays exactly if the data fills whole buffers and the last buffer with data is full already |
| `Shortfalls.PackLeaves` | porting/nimble/src/os_mbuf.c:1219-1232 | a full buffer and an empty packet behind it: the empty buffer stays in the chain |
| `Shortfalls.PackLeavesEmpty` | porting/nimble/src/os_mbuf.c:1219-1232 | such packets can be built from a new pool, and then it happens |
| `Packing.Compact` | porting/nimble/src/os_mbuf.c:1182-1242 | the three nested loops on one chain, with termination |
| `Packing.ContentPass` | porting/nimble/src/os_mbuf.c:1206-1217 | moving bytes from one buffer to the one before keeps the packet |
| `Duplicating.Dup` | porting/nimble/src/os_mbuf.c:487-529 | a disjoint chain that copies the original buffer by buffer, whatever pools its buffers come from, when each buffer's data fits a buffer of the first one's pool; NULL exactly when that pool has fewer free blocks than the chain has buffers, and then the free blocks are as before; original unchanged |
| `Duplicating.OnePoolFits` | porting/nimble/src/os_mbuf.c:487-529 | the data always fits when all buffers come from one pool |
| `Duplicating.CopyOne` | porting/nimble/src/os_mbuf.c:497-521 | one copied buffer: same header, flags, length, data |
| `Duplicating.CopiesSame` | porting/nimble/src/os_mbuf.c:487-529 | buffer-wise copies hold the same bytes |
| `Fragments.SplitFrag` | porting/nimble/src/mem.c:267-302 | for a header above the maximum, right or not: first max bytes in the fragment, the rest left, the header of the rest counted down by max; NULL exactly when the pool cannot hold the fragment or the packet has fewer bytes than that, and then the packet and the free blocks are as before; otherwise the packet itself; the fragment takes exactly as many blocks as needed; which buffers the rest keeps: those from the one that the cut is in, and the old head if the header has no room there |
| `Fragments.FragmentAll` | porting/nimble/src/mem.c:243-251 | the whole loop: fragments in order are the pieces of the packet, disjoint, with right headers; every block is in a fragment handed over or free, so on failure, when a proper prefix of the pieces was sent, the rest, which holds the other pieces, is free again; it succeeds if there are free blocks for all fragments but the last, and for a packet from the same pool exactly if there are for each in turn, counting the buffers given back so far |
| `Fragments.CopyFront` | porting/nimble/src/mem.c:281-291 | allocating and filling a fragment, all or nothing |
| `Fragments.ShortenFront` | porting/nimble/src/mem.c:292-295 | cutting the front off and trimming: which buffers remain, and how much data is left in each |
| `Fragments.BalanceNext` | porting/nimble/src/mem.c:243-251 | one turn of the sending loop: the free count goes down by the fragment's blocks and up by the packet's emptied buffers |
| `Shapes.LeftNext` | porting/nimble/src/mem.c:292-295 | one split after another leaves the buffers that one split of all the bytes would leave |
| `Shapes.KeptIs` | porting/nimble/src/mem.c:292-295 | how many buffers a packet keeps: those from the cut on, and one more if the header has no room in the first of them |
| `Fragments.FillFragment` | porting/nimble/src/mem.c:286-291 | a fragment is filled exactly when the source has the bytes and pool and buffer have the room |
| `Pieces.ChunksFlat` | porting/nimble/src/mem.c:237-256 | the pieces in order are the packet |
| `Pieces.ChunksSizes` | porting/nimble/src/mem.c:237-256 | all pieces but the last have exactly the maximum size, the last is not larger |
| `Pieces.ChunksCount` | porting/nimble/src/mem.c:237-256 | the number of pieces is the size divided by the maximum, rounded up, and at least one |
| `Runs.Apply` | porting/nimble/src/os_mbuf.c:305-1245 | every call on one packet keeps free blocks and blocks in packets complete and apart, and the records of free counts going; in a safe call no block is lost and right headers stay right; only widen loses blocks; what the call does is its effect on values |
| `Runs.CheckSafe` | porting/nimble/src/os_mbuf.c:832-1158 | whether a call is safe can be computed beforehand: not a widen that spills, and not a copyinto that extends elsewhere than from the old end or in a single buffer |
| `Runs.LocatedOnce` | porting/nimble/src/os_mbuf.c:531-557 | an offset lies at one place in the chain, so it is one buffer whose tail decides about a spill |
| `Runs.ApplyTwo` | porting/nimble/src/os_mbuf.c:458-1245 | the same for the calls on two packets |
| `Runs.ApplyNew` | porting/nimble/src/os_mbuf.c:242-303 | the same for getting buffers |
| `Systems.System.Run` | porting/nimble/src/os_mempool.c:330-397 | any run of calls on any number of packets and pools moves step by step as the effects of the calls say; every block is free or in a packet or lost; while all calls are safe ones nothing is lost and no header made wrong; only widen loses blocks; every pool's record of free counts is continued and its low-water mark does not rise |
| `Systems.System.DoOne` | porting/nimble/src/os_mbuf.c:305-1245 | one call on one packet has the effect told on values, and leaves all other packets as they are; it loses a block or makes a header wrong only if it is a widen that spills or a copyinto that extends; a call guarded by the check never does, and is left out exactly if it is not safe |
| `Systems.System.DoTwo` | porting/nimble/src/os_mbuf.c:458-1245 | the same for the calls on two packets |
| `Systems.System.DoNew` | porting/nimble/src/os_mbuf.c:242-303 | the same for getting buffers |
| `Effects.BytesMove` | porting/nimble/src/os_mbuf.c:305-1245 | call by call, what a step makes of a packet's bytes: kept, cut or extended at an end, or taken apart; the other packets follow unchanged |
| `Effects.BytesMoveTwo` | porting/nimble/src/os_mbuf.c:458-1245 | joining adds the bytes of the second packet; appending takes a prefix of the range and leaves the source alone |
| `Effects.AppendMoves` | porting/nimble/src/os_mbuf.c:384-456 | an append with room adds all the data and counts it in the header |
| `Effects.FreeMoves` | porting/nimble/src/os_mbuf.c:326-350 | freeing takes the packet out and raises each pool's count by its buffers |
| `Effects.NewMoves` | porting/nimble/src/os_mbuf.c:242-303 | a new empty packet and one free block less, or, exactly when none can be had, nothing |
| `Systems.OnePlace` | porting/nimble/src/os_mempool.c:330-397 | each block is on its pool's list at one place, or in one packet at one place, or lost, and never in two of these |
| `Systems.Accounts` | porting/nimble/src/os_mempool.c:330-397 | free count, blocks in use and lost blocks add up to the pool's blocks; after any run the low-water mark is the least of the counts at setup and of all since |
| `Systems.HeadersRight` | porting/nimble/include/os/os_mbuf.h:60-74 | while all calls were safe ones, every header states its packet's length |
| `Systems.TakeOut` | porting/nimble/src/os_mbuf.c:305-350 | any one packet can be set aside for a call: it is a packet of its own, with its header right while headers are, none of its buffers is in another packet, and the others are still such packets |
| `Systems.SetUp` | porting/nimble/src/mem.c:206-224 | a system with one new pool: n blocks, all free, none lost, record n |
| `Mempools.Mempool.Init` | porting/nimble/src/os_mempool.c:119-180 | error codes exactly; the free list threaded through memory is every block once, in address order |
| `Mempools.Mempool.Clear` | porting/nimble/src/os_mempool.c:245-284 | rebuilds the same list and counters, for pools without blocks too |
| `Mempools.Mempool.Get` | porting/nimble/src/os_mempool.c:330-367 | unlinks the head of the threaded list |
| `Mempools.Mempool.Put` | porting/nimble/src/os_mempool.c:369-446 | links a block in front; the count stays within the number of blocks |
| `Mempools.Mempool.NotTooMany` | porting/nimble/src/os_mempool.c:386-389 | the check on the free count that the source leaves out is never needed |
| `Mempools.Mempool.AllThreaded` | porting/nimble/src/os_mempool.c:156-172 | links in address order make a list of all blocks |
| `Mempools.Mempool.Use` | porting/nimble/include/os/os_mempool.h:34-43 | a word inside a block in use may be written without harm to the free list: it overlaps no link of a free block |
| `Mempools.Mempool.IsSane` | porting/nimble/src/os_mempool.c:286-301 | true on every state with a well-formed list, with the one exception |
| `Mempools.Mempool.Run` | porting/nimble/src/os_mempool.c:286-446 | any run of gets, puts and writes keeps the pool whole; free list, held blocks and all free counts are those of a stack of blocks; the low-water mark is the least of these counts; the sanity check passes at every step exactly if the pool ends before the end of the address space or there was never a free block at a step |
| `Mempools.TakeGive` | porting/nimble/src/os_mempool.c:330-397 | whichever held block is given back, the next take gives that one; giving back after taking restores the list; writing moves no block |
| `Mempools.FromExact` | porting/nimble/src/os_mempool.c:303-328 | with 32-bit arithmetic, the test accepts exactly the block addresses, unless the pool reaches the end of the address space |
| `Shortfalls.LastInSpace` | porting/nimble/src/os_mempool.c:303-328 | a pool of one block at the end of the address space, as init accepts it: its block is not recognised, and the pool is not sane |
| `Mempools.BytesExact` | porting/nimble/include/os/os_mempool.h:167-171 | the blocks fill exactly the bytes the macro computes |
| `PoolRefinement.GetBoth` | porting/nimble/src/os_mempool.c:330-367 | taking a block from the list of blocks and from the list threaded through memory gives the same block, and the two still represent the same pool |
| `PoolRefinement.PutBoth` | porting/nimble/src/os_mempool.c:369-397 | the same for putting a block back |
| `PoolRefinement.SetUpBoth` | porting/nimble/src/os_mempool.c:119-180 | a pool of n blocks and the memory initialised for n blocks represent each other |
| `EventQueues.EventQueue.Put` | porting/npl/rtthread/src/npl_os_rtthread.c:63-78 | queues an event once; the assertion holds iff the event is queued already or a slot is free |
| `EventQueues.EventQueue.Get` | porting/npl/rtthread/src/npl_os_rtthread.c:43-58 | the oldest event, flag cleared |
| `EventQueues.EventQueue.RoomForAll` | porting/npl/rtthread/src/npl_os_rtthread.c:38-78 | with at most 32 events there is always a slot |
| `EventQueues.EventQueue.Run` | porting/npl/rtthread/src/npl_os_rtthread.c:43-78 | in every run the flags agree with the queue, no assertion fails, and what is sent and got is what the calls make of an unbounded queue that takes no event twice, oldest first |
| `EventQueues.NoneForgotten` | porting/npl/rtthread/src/npl_os_rtthread.c:43-78 | whatever is called, an event that was put waits or has come out since |
| `EventQueues.InAndOut` | porting/npl/rtthread/src/npl_os_rtthread.c:43-78 | events put once each come out in that order, as many as there are gets; a second put of a waiting event changes nothing |
| `EventQueues.Mqueue.Put` | porting/nimble/src/os_mbuf.c:91-118 | only packets with a header; the packet is last in line; the assertion in the event put holds iff the event is queued or a slot is free, always so with at most 32 events |
| `EventQueues.Mqueue.Get` | porting/nimble/src/os_mbuf.c:68-89 | the oldest packet |
| `Wakeups.StepKeeps` | porting/npl/rtthread/src/npl_os_rtthread.c:43-78 | the invariant under each single step |
| `Wakeups.NoLostWakeup` | porting/nimble/src/os_mbuf.c:68-118 | at every point of every run, waiting packets are announced; the packets put by the steps so far have been delivered, one per take and in order, or wait |
| `Wakeups.PutsHas` | porting/nimble/src/os_mbuf.c:107 | every single put is in that list, at the place the puts before it leave |
| `Wakeups.AnyWait` | porting/nimble/src/os_mbuf.c:91-118 | any list of packets, however long, can be put before the consumer looks: all of them wait, for one event |
| `Wakeups.FallsQuiet` | porting/nimble/src/os_mbuf.c:68-118 | without new packets the system falls quiet within a bounded number of steps, in any order of steps |
| `Wakeups.QuietDelivered` | porting/nimble/src/os_mbuf.c:68-118 | whenever it is quiet, every packet that the steps put has been delivered, in order |
| `Wakeups.OneProducer` | porting/npl/rtthread/src/npl_os_rtthread.c:43-78 | with one producer the event is on its way exactly once if its flag is set, and not otherwise |
| `Wakeups.ManyCopies` | porting/npl/rtthread/src/npl_os_rtthread.c:63-78 | with two or more producers the copies of the event pile up, to any number below the 32 slots, with nothing left to deliver |
| `Wakeups.SendFails` | porting/npl/rtthread/src/npl_os_rtthread.c:63-78 | from there a state is reached, with all sends successful so far, in which a producer is about to send and no slot is free |
| `Wakeups.SendsSucceedIff` | porting/npl/rtthread/src/npl_os_rtthread.c:63-78 | without other events, every send of n producers finds a slot iff n is at most 1 |
| `Tokenizer.Line2Argv` | porting/npl/rtthread/src/npl_shell.c:163-211 | returns the number of words if it is below size and else 0; each argument read from the changed line is its word; the list ends with NULL |
| `Tokenizer.RoundTrip` | porting/npl/rtthread/src/npl_shell.c:163-211 | splitting words joined by any runs of spaces gives the words back |
| `Tokenizer.Decomposed` | porting/npl/rtthread/src/npl_shell.c:163-211 | every line is its words joined by runs of spaces, so the words are the maximal runs of non-spaces |

## Left out

- Appending.Append: a NULL chain (OS_EINVAL) is not modelled; the model takes a chain.
- Mbufs.Free: buffers without a pool, which are not freed, are not modelled; every buffer has a pool.
- Mbufs.Mbuf.Fill: the data area is a field holding a byte sequence, not an array of its own, because in the C structure it is part of the buffer; block copies replace the sequence.
- Fragments.SplitFrag: the allocation callback is the allocation of a header buffer with any user header from any pool; other callbacks are not modelled.
- Duplicating.Dup: chains with data that does not fit, in its place, a buffer of the first one's pool; the source then writes behind the copy.
- Runs.Apply: a dup of such a chain and a split of a chain without header are left out of a run.
- Cursors.Off: negative offsets, which the source would store as 16-bit positions.
- Cursors.CopyData: negative offsets.
- Cursors.Cmpf: both sides at 65536 bytes or more, where the 16-bit position wraps, and negative offsets and lengths.
- Cursors.Memcmp: the sign of a difference is modelled as the difference of the bytes.
- Widening.Widen: the bytes in the gap are whatever the buffers held before.
- Trimming.TrimFront: a NULL argument.
- Overwriting.CopyInto: negative offsets and lengths.
- Prepending.Prepend: negative lengths, for which the source would move the data pointer forward.
- ChainCopy.AppendFrom: a source chain that shares buffers with the destination.
- Mempools.Mempool.Put: the callback of extended pools.
- Tokenizer.Line2Argv: the message printed when there are too many words; lists of size 0 or 1, for which the source writes behind the list.
- os_mbuf_extend and os_mbuf_len would only add easy members.
- The msys pool list: first fit only; it is not kept sorted.
- Guard patterns, poisoning, trace calls, the global pool list and its unregistering.
- ble_npl_eventq_remove, which empties the whole queue but clears one flag, and ble_npl_eventq_is_empty, which answers the opposite of its name.
- Several event queues and several packet queues at once; other events in the queue are steps of the environment.
- Semaphores, mutexes, callouts, threads, transports, shell dispatch, GATT services and samples.
