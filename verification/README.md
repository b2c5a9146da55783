# udi debuggee runtime: verified model

udi is a debugger interface. A runtime library, `libudirt`, is loaded into the debuggee; it stops all threads at an
event, answers requests of the debugger and lets the threads go. This project models the parts of the runtime that
carry the most state, and proves what they promise.

* **Allocator** (`Words` to `Heap`). The runtime has its own copy of dlmalloc: a boundary-tag heap with small-bin rings,
  a designated victim (dv), a top chunk and 32 bitwise tries searched best-fit through bit maps. The model follows the
  configuration the runtime compiles: 64 bits, 16-byte alignment, no locks, no footers, mapped memory only. Head words,
  feet and link fields are words at addresses, updated in place by the methods of `Bins.FreeBins` and
  `Heap.MallocState`; ghost fields give the chunks, trees and rings they stand for. `Heap.MallocState.Valid` is the
  invariant of the source's own debug checkers: chunks tile each segment, PINUSE bits and feet are right, no two free
  neighbours, each free chunk in exactly the one place its size selects, maps that mark exactly the non-empty bins.
  Every operation keeps it, says which blocks are live afterwards, and leaves every other block untouched. `Fit.Chosen`
  says which free memory serves a request, `Heap.Placed` where the block is, also when the system is asked, and
  `HeapSteps.Leaves` and `HeapSteps.Freed` what is free after an allocation and after a free.
* **Breakpoints** (`Breakpoints`, `BreakpointTable`, `BreakpointRuns`, `Debuggee`). The hash table with its chains, the
  saved bytes in debuggee memory, the pointer to the continue breakpoint, and the cycle that steps over a breakpoint.
  `Debuggee.Runtime` works on the chains and refines the steps of `BreakpointRuns`, about which the results over whole
  runs are proved.
* **Thread barrier** (`Barrier`, `BarrierSafety`, `BarrierRuns`, `BarrierProgress`, `BarrierSignals`, `BarrierExample`). A
  transition system over any set of threads, with program points, control pipes, the arrival pipe, suspend signals and the
  lock. Safety holds in every state of every run; progress says how far every reachable state can go on.
* **Requests and replies** (`Cbor`, `Protocol`, `Replies`). The incremental reader of the debuggee, with its tables of
  handlers, against what the client serializes, and replies against what the client reads.
* **Formatter** (`Formatter`). The bounded text formatter.

Some promises hold only under a condition, which is proved to be exact. `compute_tree_index` gives the right bin except
for sizes from 2^40 on whose low forty bits are below 0xC00000. A register number is received only below 65536, although
the client sends 32 bits. A breakpoint that the debugger takes out and puts back between its hit and the continue loses
its original byte. Requests to install, remove or delete are served only for addresses that have a breakpoint: for
others the handlers test the wrong pointer and the debuggee crashes. It also crashes when the debugger deletes the
continue breakpoint and continues. Deleting the head of a longer chain of breakpoints deletes the whole bucket, although
the comment there takes it for the only element: traps of the bucket stay in memory without a record, and breakpoints
created between a hit and its continue are lost when they come behind the continue breakpoint in a bucket that was empty.
Stepping over a breakpoint deletes a breakpoint that is at the successor. The barrier can wait for ever: a suspend signal
that comes while the one of an earlier round is still to be delivered is ignored with it. A thread that dies after it was
stopped by a signal does not ignore the signal left over. A data map with another number of items than expected, or with
an unknown key, makes the reader go on until the stream ends. `%d` writes no digit for the least `int`, and `%l` is right
only below 2^31.

The system is a parameter: replies to requests for memory, whether debuggee memory can be accessed, the successor of an
instruction, and the message of an error number. What the system promises is stated as a predicate
(`Heap.MallocState.Offers`, `Supplies`, `Remaps`): new pages are page-aligned, at the size asked, zero, and apart from
everything in use.

## Model

| member | source | states |
|---|---|---|
| `BinIndex.TreeIndexExact` | libudirt/src/dlmalloc.c:2833-2844 | the computed tree index is the bin the size belongs to if and only if the size is below 2^40 or its low forty bits reach the last bin |
| `BinIndex.TreeIndexTruncated` | libudirt/src/dlmalloc.c:2835 | the index sees only the low forty bits of the size, because `X` is a 32-bit `unsigned int` |
| `BinIndex.TreeIndexOverflow` | libudirt/src/dlmalloc.c:2835-2837 | counterexample family: every positive multiple of 2^40 is put into bin 0 |
| `BinIndex.TreeIndexUnique` | libudirt/src/dlmalloc.c:2833-2844 | below 2^40 the index is the only bin whose range of sizes holds the size, from both sides |
| `BinIndex.TreeIndexMonotone` | libudirt/src/dlmalloc.c:2833-2844 | below 2^40 larger sizes never have smaller indices |
| `BinIndex.TreeIndexBound` | libudirt/src/dlmalloc.c:2833-2844 | the index is a bin number for every size |
| `BinIndex.BinIsAlignedBlock` | libudirt/src/dlmalloc.c:2905-2907 | each bin is an aligned block of a power of two of sizes, and the next bin starts where it ends |
| `BinIndex.LeftShiftFirstOpenBit` | libudirt/src/dlmalloc.c:2896-2902 | the left shift of a bin puts the first size bit that the bin leaves open at the sign position |
| `BinIndex.BinsAscend` | libudirt/src/dlmalloc.c:2905-2907 | every size of a later bin exceeds every size of an earlier one |
| `BinMaps.NegValue` | libudirt/src/dlmalloc.c:2925-2928 | the ripple-carry negation used in the bit-map macros is two's complement negation of 32-bit words |
| `BinMaps.LeastBitIsolates` | libudirt/src/dlmalloc.c:2925 | `x & -x` is the lowest set bit, and its index is that of `x` |
| `BinMaps.LeftBitsMask` | libudirt/src/dlmalloc.c:2928 | `left_bits` of one bit is the mask of exactly the places above it |
| `BinMaps.NextMarked` | libudirt/src/dlmalloc.c:4458-4466 | the masked least bit is the next marked bin, and the masked word is zero if and only if there is none |
| `BinMaps.NextSmall` | libudirt/src/dlmalloc.c:4595-4597 | the search on the shifted small map is the search on the map itself |
| `BinMaps.ShrZero` | libudirt/src/dlmalloc.c:4575-4591 | the shifted map is zero if and only if no bin from the first one on is marked |
| `BinMaps.MarkBit` | libudirt/src/dlmalloc.c:2913-2920 | marking sets exactly one bit |
| `BinMaps.ClearBit` | libudirt/src/dlmalloc.c:2913-2921 | clearing clears exactly one bit |
| `Trie.InsertKeepsTrie` | libudirt/src/dlmalloc.c:3643-3692 | insertion keeps the path bits and one node per size, and adds exactly the one size |
| `Trie.InsertAdds` | libudirt/src/dlmalloc.c:3643-3692 | insertion adds exactly the one chunk to the counted chunks |
| `Trie.InsertHolds` | libudirt/src/dlmalloc.c:3643-3692 | after insertion a chunk is held under a size if and only if it was, or it is the new one |
| `Trie.RemoveKeepsTrie` | libudirt/src/dlmalloc.c:3711-3780 | unlinking, with replacement by a leaf from below, keeps path bits and one node per size |
| `Trie.RemoveTakes` | libudirt/src/dlmalloc.c:3711-3780 | unlinking takes exactly the one chunk off the counted chunks |
| `Trie.SpliceKeeps` | libudirt/src/dlmalloc.c:3725-3740 | a node replaced by a leaf descendant leaves a trie of all the other sizes |
| `Trie.SpliceChunks` | libudirt/src/dlmalloc.c:3725-3740 | replacement loses the chunks of the node and no others |
| `Trie.LeftBelowRight` | libudirt/src/dlmalloc.c:3296-3341 | every size of a left subtree is below every size of the right one |
| `Fifo.InsertJoinsQueue` | libudirt/src/dlmalloc.c:3676-3683 | a chunk of a size that is present joins the end of the queue of its node |
| `Fifo.RemoveTakesHead` | libudirt/src/dlmalloc.c:3711-3724 | taking the chunk in the tree takes the head of the queue |
| `Fifo.FirstInFirstOut` | libudirt/src/dlmalloc.c:3676-3724 | over any interleaving of inserts and takes of any sizes, the chunks of each size leave through the tree in the order in which they came |
| `Fifo.InsertRingAt` | libudirt/src/dlmalloc.c:3643-3692 | insertion changes the ring of its size only, wherever in the tree that is |
| `Fifo.RemoveRingAt` | libudirt/src/dlmalloc.c:3711-3780 | taking the chunk in the tree changes the ring of its size only, also when a leaf from below replaces the node |
| `Rings.InsertRing` | libudirt/src/dlmalloc.c:3565-3581 | linking behind the first element of a ring gives the ring with the new element, also with stale links in an empty header |
| `Rings.RemoveRing` | libudirt/src/dlmalloc.c:3584-3607 | joining the neighbours of an element gives the ring without it |
| `TreeUnlink.AdoptLinked` | libudirt/src/dlmalloc.c:3755-3778 | when a leaf takes over the parent and children of a node, the stored links are those of the new tree |
| `Bins.FreeBins.constructor` | libudirt/src/dlmalloc.c:2630 | zeroed bins |
| `Bins.FreeBins.InitBins` | libudirt/src/dlmalloc.c:3906-3913 | every small bin becomes an empty ring; the bins are well formed and hold nothing |
| `Bins.FreeBins.InsertSmall` | libudirt/src/dlmalloc.c:3565-3581 | the chunk becomes first in the bin of its size; links, maps and every other bin stay well formed and as they were |
| `Bins.FreeBins.UnlinkSmall` | libudirt/src/dlmalloc.c:3584-3607 | exactly the chunk leaves its bin from any place; the order of the rest stays; the map bit clears with the last chunk |
| `Bins.FreeBins.UnlinkFirstSmall` | libudirt/src/dlmalloc.c:3610-3626 | the first chunk of a marked bin leaves |
| `Bins.FreeBins.Descend` | libudirt/src/dlmalloc.c:3657-3690 | the loop over size bits ends at the node of the size or at the empty child where it belongs |
| `Bins.FreeBins.LinkLeaf` | libudirt/src/dlmalloc.c:3665-3670 | the chunk becomes a leaf where the descent ended, and the stored tree is `Insert` of the old one |
| `Bins.FreeBins.LinkChained` | libudirt/src/dlmalloc.c:3676-3684 | the chunk joins the ring of its size, and the stored tree is `Insert` of the old one |
| `Bins.FreeBins.InsertLarge` | libudirt/src/dlmalloc.c:3643-3692 | the stored trie of the bin becomes `Insert` of the old one, in parent, child and ring pointers alike |
| `Bins.FreeBins.FindLeaf` | libudirt/src/dlmalloc.c:3726-3733 | the loop finds the leaf that replaces a node and the pointer to it |
| `Bins.FreeBins.TakeReplacement` | libudirt/src/dlmalloc.c:3712-3740 | first half of unlinking: the chunk is off its ring, or a leaf is cut off, with the replacement |
| `Bins.FreeBins.Relink` | libudirt/src/dlmalloc.c:3741-3779 | second half: the exact writes to parent, children, bin and map |
| `Bins.FreeBins.PutReplacement` | libudirt/src/dlmalloc.c:3741-3779 | the stored tree is the old one without the chunk, and the map bit clears with the last node |
| `Bins.FreeBins.UnlinkLarge` | libudirt/src/dlmalloc.c:3711-3780 | the stored trie of the bin becomes `Remove` of the old one; chunks outside stay as they were |
| `Bins.FreeBins.FitInBin` | libudirt/src/dlmalloc.c:4435-4457 | the descent keeps the best fit and the deepest right subtree not taken; everything else of the bin is no better |
| `Bins.FreeBins.Leftmost` | libudirt/src/dlmalloc.c:4468-4475 | following leftmost children gives the smallest chunk of a subtree |
| `Bins.FreeBins.FindFit` | libudirt/src/dlmalloc.c:4429-4475 | the chunk found is of least size at least `nb` over all tree bins, and none is found only if there is none |
| `Bins.FreeBins.FindSmallest` | libudirt/src/dlmalloc.c:4500-4515 | the chunk found is the smallest of all tree bins |
| `Fit.MemberBin` | libudirt/src/dlmalloc.c:3382-3415 | a binned chunk is in the one bin its size selects, and that bin is marked |
| `Fit.SmallBinSmallest` | libudirt/src/dlmalloc.c:4575-4598 | the first marked small bin that is large enough holds the smallest fitting chunks of all bins |
| `Fit.TreeSmallest` | libudirt/src/dlmalloc.c:4429-4475 | with no small bin able to serve, the best tree chunk is the smallest fitting chunk of all bins |
| `Fit.NoMarks` | libudirt/src/dlmalloc.c:4575-4617 | with no marked bin from the bin of the request on, no binned chunk fits |
| `Fit.WrappedTest` | libudirt/src/dlmalloc.c:4478 | the unsigned test against `dvsize - nb`, which wraps, holds if and only if the victim is too small or strictly worse |
| `Requests.PaddedFits` | libudirt/src/dlmalloc.c:2222-2231 | a padded size has room for the request and one word, is aligned, wastes less than 32 bytes, and small requests are those below 256 |
| `Requests.SegmentSizeWraps` | libudirt/src/dlmalloc.c:4047-4049 | the test `asize <= nb` holds if and only if the size for the system wrapped past 2^64 |
| `Requests.MapSizeWraps` | libudirt/src/dlmalloc.c:3822-3828 | the test `mmsize > nb` holds if and only if the mapping size did not wrap |
| `Requests.TooLargeFails` | libudirt/src/dlmalloc.c:4623-4624 | the forced size for requests from MAX_REQUEST on passes neither test |
| `Requests.CallocExact` | libudirt/src/dlmalloc.c:4786-4794 | the calloc request is the exact product, or the failing value if and only if the product does not fit |
| `Requests.WrappedQuotient` | libudirt/src/dlmalloc.c:4790-4793 | why the overflow test is exact: a wrapped product divided by one factor never gives the other |
| `Books.SplitHeap` | libudirt/src/dlmalloc.c:4606-4610 | cutting a free chunk keeps the heap well formed |
| `Books.CoalesceHeap` | libudirt/src/dlmalloc.c:4358-4424 | merging neighbours keeps the heap well formed |
| `Books.TakeTopHeap` | libudirt/src/dlmalloc.c:4224-4233 | cutting the low end of top keeps the heap well formed |
| `Books.JoinTopHeap` | libudirt/src/dlmalloc.c:4389-4398 | merging into top keeps the heap well formed |
| `Books.AbsorbHeap` | libudirt/src/dlmalloc.c:4851-4868 | a chunk in use swallowing a free neighbour keeps the heap well formed |
| `Books.GrowIntoTopHeap` | libudirt/src/dlmalloc.c:4826-4837 | growing a chunk in use into top keeps the heap well formed |
| `Books.AppendHeap` | libudirt/src/dlmalloc.c:4201-4204 | pages after the segment of top keep the heap well formed |
| `Books.PrependHeap` | libudirt/src/dlmalloc.c:3935-3974 | pages before any segment keep the heap well formed |
| `Books.CloseTopHeap` | libudirt/src/dlmalloc.c:3977-4027 | closing a segment with a record and fenceposts keeps the heap well formed |
| `Layout.ChunksApart` | libudirt/src/dlmalloc.c:3214-3293 | chunks of a well-formed layout do not overlap |
| `Contents.BlocksApart` | libudirt/src/dlmalloc.c:3282-3293 | live blocks, mapped ones included, do not overlap |
| `Contents.PayloadsApart` | libudirt/src/dlmalloc.c:3282-3293 | an address is in the payload of at most one live block |
| `UserWrites.ScribbleKeeps` | libudirt/src/dlmalloc.c:2064-2115 | whatever a caller stores in a live block, mapped or not, the heap and the mappings stay well formed with the same blocks |
| `HeapWalk.WalkPlace` | libudirt/src/dlmalloc.c:3424-3441 | the walk stops exactly at top in the first segment and at a fencepost in the others |
| `HeapWalk.SegmentSum` | libudirt/src/dlmalloc.c:3418-3446 | the sizes of the chunks of a segment, with top and its foot, add up to the segment as far as its first fencepost |
| `HeapWalk.SegmentsConserved` | libudirt/src/dlmalloc.c:4539-4784 | between any two well-formed states with the same segments and fenceposts, chunks account for the same bytes in every segment |
| `HeapWalk.Coalesced` | libudirt/src/dlmalloc.c:3450-3476 | in a heap of one segment without live blocks, top is the only chunk, dv is absent, and bins and maps are empty |
| `Heap.MallocState.constructor` | libudirt/src/dlmalloc.c:2577-2630 | the zeroed state |
| `Heap.MallocState.Unlink` | libudirt/src/dlmalloc.c:3788-3790 | a chunk leaves its bin, small or large, and nothing else changes |
| `Heap.MallocState.Insert` | libudirt/src/dlmalloc.c:3784-3786 | a loose chunk enters the bin of its size, and nothing else changes |
| `Heap.MallocState.HandOut` | libudirt/src/dlmalloc.c:3077-3080 | a whole free chunk becomes a live block |
| `Heap.MallocState.HandOutPart` | libudirt/src/dlmalloc.c:4606-4610 | the low part of a free chunk becomes a live block, the rest a free chunk |
| `Heap.MallocState.TakeFromTop` | libudirt/src/dlmalloc.c:4653-4663 | the low end of top becomes a live block, and the rest stays top |
| `Heap.MallocState.SetFree` | libudirt/src/dlmalloc.c:2282-2289 | the chunks of a stretch become one free chunk and exactly one live block goes |
| `Heap.MallocState.ExtendTopDown` | libudirt/src/dlmalloc.c:4389-4398 | top takes in a stretch; dv is dropped if it is part of it and stays otherwise |
| `Heap.MallocState.MergeNext` | libudirt/src/dlmalloc.c:4405-4414 | a binned neighbour is unlinked and merged |
| `Heap.MallocState.FreeForward` | libudirt/src/dlmalloc.c:4387-4424 | second half of `dispose_chunk`: what top, dv and the binned chunks are afterwards, in all four cases |
| `Heap.MallocState.GrowDvDown` | libudirt/src/dlmalloc.c:4399-4404 | dv takes in a stretch before it |
| `Heap.MallocState.Dispose` | libudirt/src/dlmalloc.c:4358-4424 | exactly one live block goes, the heap stays well formed and fully merged, and all other blocks are untouched; the merged chunk goes to top if that comes next, is dv if dv was part of it, and is binned otherwise |
| `Heap.MallocState.FromSmallBin` | libudirt/src/dlmalloc.c:4577-4588 | the first chunk of the bin is used whole, and nothing else that is free changes |
| `Heap.MallocState.ReplaceDv` | libudirt/src/dlmalloc.c:3629-3636 | exactly the old victim is binned and the loose chunk becomes the victim |
| `Heap.MallocState.CutIntoDv` | libudirt/src/dlmalloc.c:4602-4611 | the low part is handed out; the rest becomes the victim, and the old one is binned, if and only if it makes a chunk |
| `Heap.MallocState.FromDv` | libudirt/src/dlmalloc.c:4633-4651 | the victim is used whole or in part, and the rest stays the victim |
| `Heap.MallocState.TmallocLarge` | libudirt/src/dlmalloc.c:4429-4497 | the chunk used is the smallest binned one that fits and is used exactly when dv is too small or strictly worse; its rest is binned; otherwise nothing changes |
| `Heap.MallocState.TmallocSmall` | libudirt/src/dlmalloc.c:4500-4535 | the chunk cut is the smallest binned one that fits, and its rest becomes dv |
| `Heap.MallocState.CutFirst` | libudirt/src/dlmalloc.c:4590-4615 | the first chunk of the next small bin is cut, and its rest becomes dv |
| `Heap.MallocState.NextSmallBin` | libudirt/src/dlmalloc.c:4595-4597 | the bin found is the first marked one above |
| `Heap.MallocState.FromBins` | libudirt/src/dlmalloc.c:4570-4622 | the chunk used for a small request is the one that the order of `Fit.Chosen` selects, and the smallest binned one that fits; nothing is used only if no exact bin is marked and dv serves or none fits |
| `Heap.MallocState.MmapAlloc` | libudirt/src/dlmalloc.c:3821-3850 | zero if and only if the size wrapped or the system refused; otherwise a new zeroed block at the pages given and all others untouched |
| `Heap.MallocState.InitHeap` | libudirt/src/dlmalloc.c:4171-4190 | first memory: everything is top |
| `Heap.MallocState.AppendPages` | libudirt/src/dlmalloc.c:4198-4204 | top and its segment grow by the new pages; all blocks stay |
| `Heap.MallocState.PrependAlloc` | libudirt/src/dlmalloc.c:3935-3974 | a new block of the size asked for; the rest joins top, dv or a free neighbour |
| `Heap.MallocState.WriteFenceposts` | libudirt/src/dlmalloc.c:4005-4014 | the loop writes exactly the fenceposts up to the end of the segment |
| `Heap.MallocState.RecordSpot` | libudirt/src/dlmalloc.c:3978-3987 | where the record of the old segment goes |
| `Heap.MallocState.CloseOldTop` | libudirt/src/dlmalloc.c:3988-4022 | the exact writes that close the old top |
| `Heap.MallocState.AddSegment` | libudirt/src/dlmalloc.c:3977-4027 | the pages become the first segment and top, the old top is closed and what is left of it binned; all blocks stay |
| `Heap.MallocState.Extend` | libudirt/src/dlmalloc.c:4192-4233 | the request is served, from top if the pages come right after its segment, from their start otherwise; the pages are appended to that segment, put before the segment they touch, or made a segment of their own, in this order |
| `Heap.MallocState.FromPages` | libudirt/src/dlmalloc.c:4166-4233 | once the system returns memory, the request is always served, on all four paths, from the place and with the segments that `HeapSteps.PagesJoin` says |
| `Heap.MallocState.SysAlloc` | libudirt/src/dlmalloc.c:4032-4238 | fails if and only if every size wrapped or the system refused; a mapping is made if and only if the request reaches the threshold, there is a heap and the system gives one; on failure nothing changes |
| `Heap.MallocState.FromFree` | libudirt/src/dlmalloc.c:4539-4663 | the memory used is the one that the order of `Fit.Chosen` selects, zero if and only if no binned chunk, dv or top has room; what stays free afterwards is exact |
| `Heap.MallocState.Malloc` | libudirt/src/dlmalloc.c:4539-4673 | a result is a new aligned block, apart from every live block and from bookkeeping, of at least the padded request, less than MIN_CHUNK_SIZE larger unless mapped; free memory serves it in the order of `Fit.Chosen` and the system only when none has room, at the place that `Heap.Placed` says; zero if and only if nothing fits and the system gave nothing; what stays free is exact; requests from MAX_REQUEST on fail; the chunk bytes of every segment are the same as before unless nothing fitted and the system gave pages |
| `Heap.MallocState.Free` | libudirt/src/dlmalloc.c:4677-4784 | exactly the block goes from the live blocks; every other block is untouched; the heap stays well formed; what is free afterwards is exact; segments and the chunk bytes of each are the same as before |
| `Heap.MallocState.CutUsed` | libudirt/src/dlmalloc.c:4819-4821 | a block in use is cut in two, keeping the prefix |
| `Heap.MallocState.AbsorbNext` | libudirt/src/dlmalloc.c:4851-4867 | a block in use swallows the loose chunk after it, keeping its contents |
| `Heap.MallocState.Shrink` | libudirt/src/dlmalloc.c:4816-4825 | shrinking in place keeps the first part and frees the rest if and only if it makes a chunk |
| `Heap.MallocState.GrowIntoTopOf` | libudirt/src/dlmalloc.c:4826-4837 | growing into top keeps the contents and takes just the bytes asked for |
| `Heap.MallocState.RestToDv` | libudirt/src/dlmalloc.c:4842-4850 | the rest of the old victim is the new victim |
| `Heap.MallocState.GrowIntoDv` | libudirt/src/dlmalloc.c:4838-4859 | growing into dv keeps the contents; a rest that makes a chunk stays dv |
| `Heap.MallocState.TryRealloc` | libudirt/src/dlmalloc.c:4806-4883 | succeeds if and only if the block has the room, or gets it from top or the free chunk behind it; then it is resized keeping the common prefix and all other blocks, with exactly what stays free; otherwise nothing changes |
| `Heap.MallocState.MmapResize` | libudirt/src/dlmalloc.c:3853-3885 | exactly when a mapping is kept, when the system resizes it and when neither is done; its contents stay |
| `Heap.MallocState.Resize` | libudirt/src/dlmalloc.c:4806-4883 | where a block, mapped or not, is after it was resized without copying, zero if and only if that cannot be done |
| `Heap.MallocState.CopyAndFree` | libudirt/src/dlmalloc.c:5215-5217 | the smaller of old usable size and request is copied, and exactly the old block goes |
| `Heap.MallocState.MoveBlock` | libudirt/src/dlmalloc.c:5212-5219 | allocate, copy, free; no word of the new block is written after the copy; the new block is where `malloc` puts it; fails, with nothing changed, if and only if `malloc` does |
| `Heap.MallocState.Realloc` | libudirt/src/dlmalloc.c:5180-5223 | keeps the first min(old usable size, request) bytes, in place because no allocator word is written in the kept prefix, and leaves all other live blocks untouched; the block stays where it is, or goes where the system put its mapping, if and only if it can be resized there, and otherwise moves to where `malloc` puts it; zero if and only if the request reaches MAX_REQUEST or the block must move and `malloc` fails, and then nothing changes |
| `Heap.MallocState.Calloc` | libudirt/src/dlmalloc.c:4786-4799 | zeroed bytes of the exact product where `malloc` puts them; fails, with nothing changed, if and only if the product reaches MAX_REQUEST or `malloc` fails |
| `Heap.MallocState.TraverseSegment` | libudirt/src/dlmalloc.c:3418-3446 | the walk finds exactly the chunks of the segment, tiling it, and computes the sum of their sizes |
| `Heap.MallocState.FreeAll` | libudirt/src/dlmalloc.c:4677-4784 | freeing every block in any order conserves every segment and leaves, in a heap that had one segment, top as the only chunk, no dv and empty bins |
| `Fit.FirstFits` | libudirt/src/dlmalloc.c:4577-4588 | the first chunk of the first marked small bin from the bin of the request on is the smallest binned chunk that fits |
| `HeapSteps.ChoiceOrder` | libudirt/src/dlmalloc.c:4539-4663 | what the order of use means: top only if no other free chunk fits, dv only if no binned chunk fits better or a small request has none to use up, a binned chunk only if it is the smallest that fits and, for a large request, dv does not fit as well |
| `HeapSteps.RoomTests` | libudirt/src/dlmalloc.c:4806-4883 | the tests for top, dv and a binned neighbour amount to the one question whether top or a free chunk behind the block has the room |
| `Breakpoints.CreateKeepsLogical` | libudirt/src/udirt.c:183-223 | creation keeps logical memory |
| `Breakpoints.InstallKeepsLogical` | libudirt/src/udirt.c:233-243 | installation keeps logical memory, also when memory cannot be read or written |
| `Breakpoints.RemoveKeepsLogical` | libudirt/src/udirt.c:253-263 | removal keeps logical memory, also when memory cannot be written |
| `Breakpoints.DeleteKeepsLogical` | libudirt/src/udirt.c:289-321 | deletion of a breakpoint that heads no longer chain keeps logical memory, and soundness unless the continue breakpoint is deleted |
| `Breakpoints.ContinueKeepsLogical` | libudirt/src/udirt-msg.c:565-633 | a continue request keeps logical memory |
| `Breakpoints.ReinstallLogical` | libudirt/src/udirt-msg.c:1638-1658 | putting the trap back keeps logical memory if and only if it was not put back already, whether or not memory can be accessed |
| `Breakpoints.ContinueHitLogical` | libudirt/src/udirt-msg.c:1620-1671 | a hit of the continue breakpoint keeps logical memory if and only if it does not take a trap for the original byte, whichever memory accesses fail |
| `Breakpoints.OtherHitLogical` | libudirt/src/udirt-msg.c:1582-1722 | a hit of any other breakpoint keeps logical memory, whichever memory accesses fail |
| `Breakpoints.WholeWhileStepped` | libudirt/src/udirt.c:273-279 | the original byte is at the breakpoint while its instruction runs |
| `Breakpoints.StepOver` | libudirt/src/udirt-msg.c:565-633 | hit, continue and hit of the successor restore the table if and only if no breakpoint was at the successor, and memory if and only if no trap was there |
| `Breakpoints.StepOverAny` | libudirt/src/udirt-msg.c:1582-1722 | the exact state after a step-over: the trap is back, the successor is out of the table, and only the last hit is silent |
| `Breakpoints.SelfSuccessor` | libudirt/src/udirt-msg.c:1673-1685 | for an instruction that is its own successor the continue puts no trap in place |
| `Breakpoints.PutBackExample` | libudirt/src/udirt-msg.c:1638-1658 | counterexample: removing and installing a hit breakpoint before continuing makes the trap its saved byte |
| `BreakpointTable.InTable` | libudirt/src/udirt.c:330-339 | the table holds exactly the addresses that a search finds |
| `BreakpointTable.AppendTable` | libudirt/src/udirt.c:183-223 | appending a record adds exactly its address to the finite map |
| `BreakpointTable.UnlinkTable` | libudirt/src/udirt.c:289-321 | deletion removes exactly the address if its record is not a bucket head, and the whole bucket if it is |
| `BreakpointTable.BucketLogical` | libudirt/src/udirt.c:311-313 | losing a bucket keeps logical memory if and only if none of its breakpoints has a trap in memory |
| `BreakpointTable.ChainsOfStore` | libudirt/src/udirt.c:169-339 | the chains list exactly the addresses of the finite map, each once and in its own bucket |
| `BreakpointTable.ChainsUnlink` | libudirt/src/udirt.c:289-321 | deletion takes one address out of its chain, or empties the chain when it is first |
| `BreakpointRuns.ServedExactly` | libudirt/src/udirt-msg.c:565-1000 | a run of requests, continues and hits is served to the end if and only if each finds what it uses: the breakpoint it names, and for a continue a record that was not freed |
| `BreakpointRuns.DeletedThenRemoved` | libudirt/src/udirt-msg.c:941-946 | counterexample: removing a breakpoint that was deleted crashes the debuggee, since the search result is not tested |
| `BreakpointRuns.FreedContinue` | libudirt/src/udirt-msg.c:598-600 | counterexample: continuing after the continue breakpoint was deleted uses its freed record, also when a breakpoint was created there again |
| `BreakpointRuns.LostThenInstalled` | libudirt/src/udirt.c:311-313 | counterexample: installing a breakpoint whose bucket was lost with its head crashes the debuggee |
| `BreakpointRuns.LooseContinue` | libudirt/src/udirt-msg.c:598-600 | counterexample: when the continue breakpoint was lost with its bucket, the continue places its trap and the hit aborts |
| `BreakpointRuns.ReusedContinue` | libudirt/src/udirt-msg.c:1626 | a breakpoint created in the memory of the freed continue breakpoint becomes the continue breakpoint |
| `BreakpointRuns.DeleteLogical` | libudirt/src/udirt.c:289-321 | a deletion keeps logical memory if and only if it loses no trap with the bucket |
| `BreakpointRuns.StepLogical` | libudirt/src/udirt-msg.c:565-1722 | every served step keeps chains, pointer and memory in order, and keeps logical memory if and only if a guard on the state before it holds |
| `BreakpointRuns.RunKeepsLogical` | libudirt/src/udirt.c:183-339 | over every run of such steps, with any failing accesses, logical memory never changes |
| `BreakpointRuns.StepOverWithRequests` | libudirt/src/udirt-msg.c:1582-1722 | with any requests in between that leave the continue breakpoint in the table, the exact table and memory after the step-over, what became of trap and original byte, and that the first hit is reported and the second is not, whatever became of the breakpoint |
| `BreakpointRuns.ContinueHitReport` | libudirt/src/udirt-msg.c:1626-1671 | a hit of the continue breakpoint fails if and only if its own trap cannot be lifted or removed, or the trap of the breakpoint hit before is still wanted, outlives the deletion and cannot be put back; otherwise it is silent or a single step |
| `BreakpointRuns.FailedHits` | libudirt/src/udirt-msg.c:1612-1685 | after a hit that fails without a successor or memory, the original byte is in place and nothing else changed, except that without memory there is no continue breakpoint and the next continue does nothing |
| `BreakpointRuns.PhaseMeaning` | libudirt/src/udirt-msg.c:1638-1656 | the original byte is lost exactly when a request took the breakpoint out and a later one put it back in, and the trap stays lifted exactly when none took it out |
| `BreakpointRuns.LinkedExactly` | libudirt/src/udirt-msg.c:598-600 | at the continue the continue breakpoint is in the table if and only if no request deleted it or lost its bucket |
| `BreakpointRuns.StepOverCreating` | libudirt/src/udirt.c:289-321 | after any creations between a hit and its continue, a breakpoint survives the step-over if and only if it is not in the bucket of the successor or that bucket was not empty before |
| `Debuggee.Runtime.constructor` | libudirt/src/udirt.c:169-171 | an empty table |
| `Debuggee.Runtime.Find` | libudirt/src/udirt.c:330-339 | finds a record if and only if the table holds the address |
| `Debuggee.Runtime.Scan` | libudirt/src/udirt.c:205-219 | the walk ends at the record of the address or at the last record of the chain |
| `Debuggee.Runtime.CreateBp` | libudirt/src/udirt.c:183-223 | refines creation, with the new address last in its chain; idempotent, and nothing changes without memory |
| `Debuggee.Runtime.InstallBp` | libudirt/src/udirt.c:233-243 | refines installation of a record in the table, and of the record of an unlinked continue breakpoint |
| `Debuggee.Runtime.RemoveBp` | libudirt/src/udirt.c:253-263 | refines `Remove`; on failure nothing changes |
| `Debuggee.Runtime.LiftBp` | libudirt/src/udirt.c:273-279 | refines `Lift`: the byte goes back and the flag stays |
| `Debuggee.Runtime.FindPrev` | libudirt/src/udirt.c:296-303 | finds the record and the one before it |
| `Debuggee.Runtime.DeleteBp` | libudirt/src/udirt.c:289-321 | refines deletion: one breakpoint or the whole bucket goes, and the pointer to the continue breakpoint stays as it is; fails without change |
| `Debuggee.Runtime.ContinueRequest` | libudirt/src/udirt-msg.c:565-633 | crashes if and only if the continue breakpoint was freed, and refines the continue otherwise |
| `Debuggee.Runtime.ReinstallLast` | libudirt/src/udirt-msg.c:1638-1658 | refines `Reinstall`, and says if and only if the trap is back or not wanted |
| `Debuggee.Runtime.Decode` | libudirt/src/udirt-msg.c:1582-1722 | refines the hit in every case, with every failing access, and the event that is reported |
| `Debuggee.Runtime.ContinueHit` | libudirt/src/udirt-msg.c:1626-1671 | the hit of the continue breakpoint after it was lifted |
| `Debuggee.Runtime.NewContinue` | libudirt/src/udirt-msg.c:1673-1721 | the successor becomes the continue breakpoint |
| `Debuggee.Runtime.CreateRequest` | libudirt/src/udirt-msg.c:899-929 | refines `Create`; refused if and only if the breakpoint exists or memory is short |
| `Debuggee.Runtime.InstallRequest` | libudirt/src/udirt-msg.c:951-966 | crashes if and only if the table does not hold the address, and refines `Install` otherwise; done if and only if the trap was there or memory can be accessed |
| `Debuggee.Runtime.RemoveRequest` | libudirt/src/udirt-msg.c:968-983 | crashes if and only if the table does not hold the address, and refines `Remove` otherwise; done if and only if no trap was there or memory can be written |
| `Debuggee.Runtime.DeleteRequest` | libudirt/src/udirt-msg.c:985-1000 | crashes if and only if the table does not hold the address, and refines the deletion otherwise, also of the continue breakpoint or its bucket |
| `Debuggee.Runtime.StepOverBp` | libudirt/src/udirt-msg.c:1582-1722 | on the chained table a step-over restores table, chains and memory exactly |
| `BarrierSafety.InitInv` | libudirt/src/udirt-posix.c:758-776 | the invariant holds at the start |
| `BarrierSafety.StepInv` | libudirt/src/udirt-posix.c:805-976 | every step of every thread keeps the invariant |
| `BarrierSafety.AllArrived` | libudirt/src/udirt-posix.c:849-856 | when as many tokens were read as signals sent, everybody has arrived and the arrival pipe is empty |
| `BarrierRuns.RunInv` | libudirt/src/udirt-posix.c:805-976 | the invariant holds in every reachable state |
| `BarrierRuns.Exclusion` | libudirt/src/udirt-posix.c:477-512 | while a thread handles events or steps over a breakpoint, every other thread is parked, its control pipe is empty and so is the arrival pipe |
| `BarrierRuns.SuspendedStays` | libudirt/src/udirt-posix.c:888-976 | a suspended thread runs no user code except the one stepped instruction |
| `BarrierRuns.ControlTokens` | libudirt/src/udirt-posix.c:910-972 | a control pipe holds at most one token, and only of a thread parked or about to park |
| `BarrierRuns.ArrivalTokens` | libudirt/src/udirt-posix.c:816-886 | an arrival token is the only one of its thread, which is parked |
| `BarrierRuns.EachArrivesOnce` | libudirt/src/udirt-posix.c:816-886 | when handling starts, each signalled thread has arrived exactly once |
| `BarrierRuns.NeverAborted` | libudirt/src/udirt-posix-pthreads.c:346-397 | a dying thread never comes out of the barrier without control |
| `BarrierRuns.ReleasedHaveNothing` | libudirt/src/udirt-posix.c:888-976 | a thread in user code has no captured event left |
| `BarrierRuns.TransferLowers` | libudirt/src/udirt-posix.c:888-976 | a hand-over takes exactly one thread off the waiting events |
| `BarrierRuns.HeldWaiters` | libudirt/src/udirt-posix.c:888-976 | while the barrier is held nothing else changes who waits |
| `BarrierRuns.OpensAtZero` | libudirt/src/udirt-posix.c:888-976 | the lock opens only when no event waits |
| `BarrierRuns.HandOverChain` | libudirt/src/udirt-posix.c:888-976 | over any held stretch the waiting events fall by exactly the number of hand-overs |
| `BarrierRuns.Round` | libudirt/src/udirt-posix.c:888-976 | in one round control is handed to exactly the other threads with a captured event, to each once, and no thread is in user code until the release |
| `BarrierRuns.SomeThreadRuns` | libudirt/src/udirt-msg.c:580-596 | in every state in which no thread holds the barrier some thread is running: the process is never let go with all threads suspended |
| `BarrierRuns.NobodyRuns` | libudirt/src/udirt-msg.c:580-596 | while a thread handles and all threads are suspended, no thread gets on: the debugger has to resume one first |
| `BarrierProgress.GatherCompletes` | libudirt/src/udirt-posix.c:849-856 | from every reachable state in which the owner waits and every other running thread has arrived, the owner comes to handle its event by reading the outstanding arrivals and beginning, and by no other steps |
| `BarrierProgress.GatheringExact` | libudirt/src/udirt-posix.c:805-886 | from a reachable state in which the owner waits, it can come to handle its event without a new event of any thread if and only if no running thread has lost its suspend signal |
| `BarrierProgress.LostStays` | libudirt/src/udirt-posix.c:468-475 | a thread whose suspend signal was ignored or is about to be stays away, and the owner waits, as long as no thread has an event of its own |
| `BarrierProgress.HeldOpens` | libudirt/src/udirt-posix.c:888-976 | from every reachable state in which a thread handles or steps, the debugger can let the process go on so that control goes through the waiting threads and the lock opens |
| `BarrierProgress.ReleasedExactly` | libudirt/src/udirt-posix.c:935-962 | the debugger can suspend or resume any thread while another one handles, and the release wakes exactly the running threads, each with one token |
| `BarrierProgress.StepsAlone` | libudirt/src/udirt-posix.c:477-512 | with a continue breakpoint set the handling thread goes to user code alone, and its trap brings it back to handling |
| `BarrierProgress.SignalledAlone` | libudirt/src/udirt-posix.c:468-512 | a suspend signal that comes while a thread steps alone is ignored if that was noted, and otherwise brings it back to handling |
| `BarrierSignals.RunSignals` | libudirt/src/udirt-posix.c:805-886 | over all runs in which no thread dies with an old suspend signal noted, what each thread notes about its suspend signal, in every phase |
| `BarrierSignals.LeftOverIgnored` | libudirt/src/udirt-posix.c:468-475 | over these runs a suspend signal that is left over when the lock is open is ignored when it is delivered |
| `BarrierSignals.EntryDecides` | libudirt/src/udirt-posix.c:868-876 | a signal delivered after a thread parked is ignored if and only if the thread had entered for an event, or died when no suspend signal was noted |
| `BarrierExample.StaleSignal` | libudirt/src/udirt-posix-pthreads.c:346-397 | counterexample: a run through two rounds, with hand-over and release, after which the suspend signal of a thread that died is not ignored |
| `BarrierExample.LostSignal` | libudirt/src/udirt-posix.c:468-475 | counterexample to progress: a run in which a new suspend signal is one with the one left over and is ignored, so the owner waits until a thread has an event of its own |
| `Cbor.PrefixStable` | libudirt/src/udirt-msg.c:50-135 | a finished item does not depend on what follows, and each shorter piece asks for more but never past its end |
| `Cbor.HeadRead` | libudirt/src/udirt-msg.c:50-135 | the shortest head of section 4.1 of RFC 8949 is read back with its width |
| `Cbor.UIntInWidthRead` | libudirt/src/udirt-msg.c:453-489 | numbers in any width that holds them are read back |
| `Protocol.ReadItem` | libudirt/src/udirt-msg.c:50-135 | the buffer loop reads exactly the bytes of one item |
| `Protocol.ReadItems` | libudirt/src/udirt-msg.c:50-135 | the loop over items computes `ReadAll` and reads no byte more |
| `Protocol.FieldsRead` | libudirt/src/udirt-msg.c:366-450 | any remaining fields complete the data of those read |
| `Protocol.MapRoundTrip` | libudirt/src/udirt-msg.c:366-450 | a map of all expected fields, in any order, is read back from exactly its own bytes |
| `Protocol.RequestRoundTrip` | libudi/src/protocol.rs:433-454 | the handler that the number of a request selects is asked to do just that request, in any order of keys, from exactly its own bytes |
| `Protocol.RoundTripExactly` | libudirt/src/udirt-msg.c:1192-1218 | what the client serializes is received as sent if and only if its register number fits 16 bits |
| `Protocol.WideRegister` | libudirt/src/udirt-msg.c:1192-1218 | a wider register number is rejected |
| `Protocol.ErrorReadsOn` | libudirt/src/udirt-msg.c:366-423 | after an error that does not end the reading, the reader never finishes |
| `Protocol.WrongSizeReadsOn` | libudirt/src/udirt-msg.c:366-385 | a map of another size than expected makes the reader take the stream to its end |
| `Protocol.OtherEnd` | libudirt/src/udirt-msg.c:1003-1031 | a request that comes to another end than it was meant for, process, thread or handshake, is not served, save that of the state |
| `Protocol.AbbreviatedKeys` | libudirt/src/udirt-msg.c:387-405 | keys are compared only as far as they were sent: every request is received with its keys abbreviated to any positive length |
| `Protocol.UnknownKeyReadsOn` | libudirt/src/udirt-msg.c:406-423 | a key that matches no expected one makes the reader take the stream to its end |
| `Protocol.WrongValueEnds` | libudirt/src/udirt-msg.c:189-265 | after a key, an item of any kind that is not expected under it ends the reading with an error right behind that item |
| `Protocol.WrongType` | libudirt/src/udirt-msg.c:1033-1071 | a number of more than 16 bits, or one without a handler, is not served |
| `Protocol.StreamAligned` | libudirt/src/udirt-msg.c:1050-1071 | over any run of requests the debuggee receives just these requests and nothing is left over |
| `Replies.NodeTaken` | libudi/src/protocol.rs:517-543 | a data item of any nesting is rebuilt as it was sent, widths included, and nothing behind it is touched |
| `Replies.ReplyTaken` | libudirt/src/udirt-msg.c:492-529 | the client takes exactly the reply to its request and gets the data or the message that the handler sent; the type in it is that of the request, except that deletion is answered as a removal |
| `Replies.ExchangesAligned` | libudi/src/protocol.rs:517-543 | over any run of exchanges the debuggee receives the requests of the client, the client gets for each the data or message of its handler, and nothing is left over in either stream |
| `Formatter.FormattedStr` | libudirt/src/udirt.c:684-697 | for every size and format the buffer gets the longest prefix of the unbounded text that leaves room for a terminator, then the terminator; every other position keeps its value |
| `Formatter.StrCtx.constructor` | libudirt/src/udirt.c:684-690 | an empty bounded writer |
| `Formatter.StrCtx.Write` | libudirt/src/udirt.c:667-682 | the writer keeps the longest prefix of all the text offered and writes nowhere else |
| `Formatter.StrCtx.Digits` | libudirt/src/udirt.c:515-535 | the ten-digit buffer holds the digits of every `int`, last one first |
| `Formatter.StrCtx.LogInteger` | libudirt/src/udirt.c:515-541 | offers the decimal text |
| `Formatter.StrCtx.LogByte` | libudirt/src/udirt.c:555-558 | offers two hexadecimal digits |
| `Formatter.StrCtx.LogWord` | libudirt/src/udirt.c:561-568 | offers sixteen hexadecimal digits, highest first |
| `Formatter.StrCtx.LogArg` | libudirt/src/udirt.c:598-620 | each directive offers the text of its argument |
| `Formatter.StrCtx.LogFormat` | libudirt/src/udirt.c:587-625 | offers the whole text of the format |
| `Formatter.IntReadBack` | libudirt/src/udirt.c:608-610 | what the format `%d` writes can be read back for every `int` if and only if it is not the least one, which prints no digit |
| `Formatter.SizeReadBack` | libudirt/src/udirt.c:614-616 | what the format `%l` writes can be read back if and only if the size is below 2^31 |
| `Formatter.WordReadBack` | libudirt/src/udirt.c:599-619 | what the format `%x` writes is sixteen digits that give back the word, and `%a` writes the same after a prefix |
| `Formatter.ByteReadBack` | libudirt/src/udirt.c:611-613 | what the format `%b` writes is two digits that give back the low byte of its argument |
| `Formatter.TextWritten` | libudirt/src/udirt.c:602-607 | the formats `%s` and `%e` write their text as it is |
| `Formatter.PlainText` | libudirt/src/udirt.c:590-593 | a format without a percent sign writes itself |
| `Formatter.FullAppend` | libudirt/src/udirt.c:587-625 | a format in two parts writes the text of the first and then that of the second, each with its own arguments, so what a directive writes does not depend on where it stands |

## Left out

- Heap.MallocState.Free: does not model trimming of top or releasing of unused segments after a free (`sys_trim`, `release_unused_segments`), which give memory back to the system.
- Heap.MallocState.SysAlloc: segments are taken to stay below 2^40 bytes, since a free chunk of that size goes to the wrong bin (`BinIndex.TreeIndexExact`) and the invariant of the bins ends there; footprint and least-address statistics are not kept.
- Books.AppendHeap: the same limit of 2^40 bytes for a segment.
- Books.PrependHeap: the same limit of 2^40 bytes for a segment.
- Books.CloseTopHeap: the same limit of 2^40 bytes for a segment.
- Heap.MallocState.InitHeap: the same limit of 2^40 bytes for a segment.
- Heap.MallocState.AppendPages: the same limit of 2^40 bytes for a segment.
- Heap.MallocState.AddSegment: the same limit of 2^40 bytes for a segment.
- Heap.MallocState.FromPages: the same limit of 2^40 bytes for a segment.
- Heap.MallocState.MoveBlock: the same limit of 2^40 bytes for a segment.
- Heap.MallocState.Realloc: the same limit of 2^40 bytes for a segment.
- Heap.MallocState.Calloc: the same limit of 2^40 bytes for a segment.
- Heap.MallocState.Extend: the same limit of 2^40 bytes for a segment; the segment of top is the first one, as it always is in this configuration, so the search for it is not modelled.
- Heap.MallocState.PrependAlloc: the same limit of 2^40 bytes for a segment; the rest is given a head in use before it is joined, where the source joins it without one; every path overwrites that head.
- Heap.MallocState.Malloc: the same limit of 2^40 bytes for a segment; corruption checks (`RTCHECK`) are taken to pass; callers free and resize only live blocks.
- Debuggee.Runtime.Decode: breakpoints for single stepping of one thread and for library events are not modelled.
- BreakpointRuns.Serve: memory requests that touch trap bytes are not modelled, and using a freed record counts as a crash whatever happens there.
- BarrierRuns.RunInv: the wake-up loop of a release is one step, a continue is refused only when all threads are suspended, and threads are neither created nor destroyed.
- BarrierProgress.GatheringExact: says what can happen, not that a fair scheduler makes it happen.
- Protocol.RequestRoundTrip: requests to read and write memory are not modelled; their fields are accepted in one width only, which a shortest-form encoder does not always send.
- Protocol.WrongType: a number past the end of a table of handlers is taken as one without a handler, where the source reads past the table.
- Protocol.StreamAligned: requests to the process and to its threads share one stream, where the runtime has a pair of pipes for each.
- Replies.ExchangesAligned: the same for replies; that the client refuses messages that are not valid UTF-8 is not modelled.
- Protocol.ReadItem: items of indefinite length and floating-point numbers are taken as malformed or dropped, as the reader has no use for them.
- Formatter.FormattedStr: the sum of lengths is taken not to wrap, negating the least `int` is taken to wrap, and a format that ends in a lone percent sign, which reads past its end, is excluded.
- Statistics, memalign, independent allocation, bulk free, mspaces, locks and footers of the allocator: not compiled in or not reached.
- Instruction decoding and successor computation: they depend on a disassembler; the successor is a parameter.
- Signals, page protection, pipes and directories, register tables, the Windows port: platform code.
- Events sent to the debugger, process creation, event polling and the C wrapper of the client: input and output with shallow properties.
