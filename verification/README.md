# Verified models of the benchmark algorithms

The repository holds a small convolutional network for a RISC-V core together with the
test and benchmark programs that came with the core. This project models the algorithms of
those programs in Dafny and proves what they are for.

* **Blocked matrix multiply.** `MatrixWindow`, `PackedTiles`, `BlockedMultiply` and
  `CacheBlocking`: pointers are an array and a position, strides are arbitrary, arithmetic is
  exact. The specification is the plain sum of products, `Op.Sum`; every function of `mm.c`
  and `rb.h` is proved to add it to its window and to leave the rest of the array alone.
* **Barrier and multi-core kernels.** `Barrier` is a machine of atomic steps, one shared access
  to a step. `Interleaving` takes from it only that nobody leaves a barrier before all have
  arrived, and proves once and for all schedules that cores which keep to a plan behave as if
  alone. `BarrierCores` puts the two together: cores that take the steps of `Barrier` between
  their accesses do what the machine of `Interleaving` can do, and can always go on until all
  have finished. `SharedCore` records a core's accesses as it runs. The kernels (`BaseMatmul`,
  `CkMatmul`, `BhMatmul`, `DmMatmul`, `AeMatmul`, with `BlockKernel` for the block loops and
  `RowOwners` for the rows of C that each core has) are methods on such a core, and each
  `MatmulAll` states the result over every interleaving with the barrier's own steps.
* **Sorts.** `Quicksort` with its explicit stack and sentinels, `RadixSort` with its unrolled
  loops, and the in-place merge sort on a heap list (`MergeRuns`, `CoreList`) with the restoring
  benchmark around it (`ListBench`).
* **Demand pager.** `Pager` runs user accesses against page-table entries, the free list and
  page contents; `Lfsr` shows that the frames are distinct.
* **CoreMark scanner and CRCs.** `Scanner`, `StateBench`, `Crc16` and `Crc32`.
* **Towers of Hanoi** on pooled linked lists: `Towers`.
* **Network in integers.** `Quantise` and `Cnn`.
* **Intel HEX.** `IntelHex`.

`Powers` has the little arithmetic they share, `Sequences` what the lists share.
`dafny verify dfyconfig.toml` checks everything.

Where the code turns out not to do what its name or comments say, the model follows the code:

* The third "scientific" pattern of `core_state.c`, `-87e+832`, has no dot and is an invalid
  number to the automaton (`StateBench.PatternKinds`).
* `ck_matmul.c` counts some columns twice when lda is an odd multiple of 8 above 16
  (`CkMatmul.RightExactly` says for every input when that shows, `CkMatmul.RightWhenEven` for
  which lda it never does).
* The final copy of `rsort.c` copies from the array that was swapped away, so it would go the
  wrong way; it is never reached for 32-bit keys (`RadixSort.Sort`).
* `evict` of `vm.c` copies the backing page over the frame and never writes the frame back, and
  the evicted node goes to the free list with its address cleared (`Pager.Vm.Evict`). It does not
  end the list at the new tail either, so after the exit sweep the list ends at its tail only if no
  page was mapped: a walk past the tail follows the stale link of the last evicted entry to nodes
  that were taken long ago, and then to the first node that never was. That node is the head
  itself, so that the list goes round in a circle, unless all 62 pages were mapped: then the
  tail pointer had been cleared one node early, and the list starts at the entry of page 1
  (`Pager.Vm.Exit`, `Pager.Vm.PastTail`).
* `ihex_line` does not check its address and type, and prints more digits if they need them; the
  line then does not read back (`IntelHex.RoundTrip` gives the exact condition).

## Model
| member | source | states |
|---|---|---|
| CacheBlocking.Mm | riscv-tools/riscv-tests/benchmarks/mm/mm.c:145-152 | for all sizes and strides and exact arithmetic, c gains the product of a and b in its m by n window and nothing else in the array changes, on either path |
| MatrixWindow.Op.GainedAt | riscv-tools/riscv-tests/benchmarks/mm/mm.c:11-31 | what gaining the product means: element (i, j) of the window of c grows by the products of a[i][k] and b[k][j], added up from k = 0 to p - 1 |
| MatrixWindow.Op.GainedElsewhere | riscv-tools/riscv-tests/benchmarks/mm/mm.c:11-31 | and every element outside the window stays |
| CacheBlocking.MmCb | riscv-tools/riscv-tests/benchmarks/mm/mm.c:74-143 | the packed path does the same: packing, tile products, both fringes and unpacking together |
| CacheBlocking.Cut.WholeProduct | riscv-tools/riscv-tests/benchmarks/mm/mm.c:74-143 | tiles packed from c, multiplied, and put back over a c whose fringes were updated in place make the whole product |
| CacheBlocking.Cut.RoundTrip | riscv-tools/riscv-tests/benchmarks/mm/mm.c:92-94 | packing the full tiles and unpacking them leaves c as it was |
| CacheBlocking.MultiplyTile | riscv-tools/riscv-tests/benchmarks/mm/mm.c:98-114 | one tile of c1 gains the products along the whole depth: packed tiles, then the rest from a and b in place; no other tile changes |
| CacheBlocking.Cut.TileSum | riscv-tools/riscv-tests/benchmarks/mm/mm.c:102-105 | a sum over packed operands is the sum over the matrices they were packed from |
| CacheBlocking.Strip | riscv-tools/riscv-tests/benchmarks/mm/mm.c:115-124 | cutting the depth of a fringe into pieces adds up to its whole product |
| CacheBlocking.Bottom | riscv-tools/riscv-tests/benchmarks/mm/mm.c:126-138 | the rows below the full tiles gain their product, in column and depth pieces with cut-off last pieces |
| CacheBlocking.Unpack | riscv-tools/riscv-tests/benchmarks/mm/mm.c:140-142 | every full tile of c is overwritten by its tile of c1, the rest of c stays |
| BlockedMultiply.MmRb | riscv-tools/riscv-tests/benchmarks/mm/mm.c:33-44 | 4 by 5 register blocks with naive loops on both fringes add the same product as the plain loops |
| BlockedMultiply.MmNaive | riscv-tools/riscv-tests/benchmarks/mm/mm.c:11-31 | four partial sums over k, with a tail, add the plain sum of products to each element of the window |
| BlockedMultiply.Kloop | riscv-tools/riscv-tests/benchmarks/mm/rb.h:3-210 | the register kernel, with its depth unrolled by six and a tail, adds the product to the 4 by 5 block of c and touches nothing else |
| BlockedMultiply.Repack | riscv-tools/riscv-tests/benchmarks/mm/mm.c:46-72 | eight at a time and a tail: the window is copied exactly, nothing outside it is written |
| BlockedMultiply.PackTiles | riscv-tools/riscv-tests/benchmarks/mm/mm.c:84-94 | the packed array holds every full tile of the strided matrix, each at the place its tile row and column say |
| PackedTiles.Tiling.Packed | riscv-tools/riscv-tests/benchmarks/mm/mm.c:86 | the packed position of the element at row r and column q, and back |
| MatrixWindow.Op.SubGained | riscv-tools/riscv-tests/benchmarks/mm/mm.c:40-43 | what a product of a shifted sub-window gains, restated for the whole matrix |
| MatrixWindow.Op.Deeper | riscv-tools/riscv-tests/benchmarks/mm/mm.c:100-106 | products over adjacent depths compose to one product |
| Barrier.RunInv | riscv-tools/riscv-tests/benchmarks/common/util.h:44-62 | every interleaving of the atomic steps of n threads keeps the barrier invariant |
| Barrier.NoEarlyExit | riscv-tools/riscv-tests/benchmarks/common/util.h:44-62 | no thread leaves its k-th barrier before all n have entered theirs; no two are more than one apart |
| Barrier.SafeReuse | riscv-tools/riscv-tests/benchmarks/common/util.h:44-62 | count stays within 0..n and is 0, with nobody in the next round, whenever the new sense is about to be published |
| Barrier.NoDeadlock | riscv-tools/riscv-tests/benchmarks/common/util.h:53-59 | while a thread waits, some step other than a failed look is enabled, or some thread has not called yet |
| Barrier.ProductiveStepsRunOut | riscv-tools/riscv-tests/benchmarks/common/util.h:53-59 | productive steps use up a bounded amount of work, so a round cannot go on for ever |
| Interleaving.Replay | riscv-tools/riscv-tests/benchmarks/common/util.h:44-62 | cores that each keep to a plan of who may touch what between barriers: in every interleaving every load returns what that core sees running alone |
| Interleaving.Finish | riscv-tools/riscv-tests/benchmarks/common/util.h:44-62 | whatever the interleaving, the final memory is the one that the plan and the cores' own last stores determine |
| Interleaving.NoDeadlock | riscv-tools/riscv-tests/benchmarks/common/util.h:44-62 | in every reachable state some unfinished core can move |
| Interleaving.TurnsRunOut | riscv-tools/riscv-tests/benchmarks/common/util.h:44-62 | every turn taken uses up one of finitely many accesses |
| Interleaving.Finishable | riscv-tools/riscv-tests/benchmarks/common/util.h:44-62 | every schedule extends to one after which all cores have finished |
| BarrierCores.Refines | riscv-tools/riscv-tests/benchmarks/common/util.h:44-62 | cores that take the atomic steps of the barrier between their accesses: in every schedule memory and progress are those of cores that leave a barrier only when all have arrived |
| BarrierCores.ReplayOver | riscv-tools/riscv-tests/benchmarks/common/util.h:44-62 | so over the real barrier too every load returns what its core sees running alone |
| BarrierCores.FinishOver | riscv-tools/riscv-tests/benchmarks/common/util.h:44-62 | and the final memory is the one that the plan and the last stores determine |
| BarrierCores.SomeoneTurns | riscv-tools/riscv-tests/benchmarks/common/util.h:53-59 | with the barrier spinning in the middle of other cores' work, some unfinished core can always do something other than look in vain |
| BarrierCores.GoesOn | riscv-tools/riscv-tests/benchmarks/common/util.h:44-62 | every schedule of accesses and barrier steps extends to one after which all cores have finished |
| BaseMatmul.Matmul | riscv-tools/riscv-tests/benchmarks/mt-matmul/matmul.c:9-23 | one core sets its block of rows of C to the product and changes nothing else |
| BaseMatmul.MatmulAll | riscv-tools/riscv-tests/benchmarks/mt-matmul/matmul.c:9-23 | all cores, any interleaving: the rows covered by the blocks (all of them exactly when ncores divides lda) end as the product |
| RowOwners.ProductAt | riscv-tools/riscv-tests/benchmarks/mt-matmul/matmul.c:14-22 | what the final memory of a kernel holds at row r and column c of C: what its base has there (zero, or the old C) and the products of A[r][k] and B[k][c], added up over k |
| RowOwners.ProductElsewhere | riscv-tools/riscv-tests/benchmarks/mt-matmul/matmul.c:14-22 | and outside these rows of C the memory is unchanged |
| CkMatmul.Band | riscv-tools/riscv-tests/mt/ck_matmul.c:17-60 | the wrapping block-column loop terminates, having gained each column of the band once, and the columns from 8 on twice when lda is an odd multiple of 8 above 16 |
| CkMatmul.MatmulAll | riscv-tools/riscv-tests/mt/ck_matmul.c:6-61 | all cores, any interleaving, 8 dividing lda: C ends as old C plus the product, plus the doubled columns where the round is uneven |
| CkMatmul.DoubledAt | riscv-tools/riscv-tests/mt/ck_matmul.c:17-60 | what is added a second time: the same sum, in columns 8 and up, if lda is above 16 and no multiple of 16 |
| CkMatmul.RightExactly | riscv-tools/riscv-tests/mt/ck_matmul.c:17-60 | for every memory: all runs of the kernel add the product exactly once if and only if lda is a multiple of 16, or at most 16, or the product is zero in all but the first eight columns |
| CkMatmul.RightWhenEven | riscv-tools/riscv-tests/mt/ck_matmul.c:17-60 | for every layout: all runs on all memories add the product exactly once if and only if lda is a multiple of 16 or at most 16; otherwise every run that ends on a memory of ones is wrong |
| BhMatmul.MatmulAll | riscv-tools/riscv-tests/mt/bh_matmul.c:14-96 | all cores, any interleaving, 8 dividing lda: ascending and descending halves together add exactly the product to C; further cores change nothing |
| BhMatmul.Matmul | riscv-tools/riscv-tests/mt/bh_matmul.c:14-96 | one core gains the product on its half of the rows over both halves of the depth, in either direction; a single core does both |
| DmMatmul.Copy | riscv-tools/riscv-tests/mt/dm_matmul.c:17-51 | each core fills its share of B1, and after the barrier sees all of B1 equal to B |
| DmMatmul.MatmulAll | riscv-tools/riscv-tests/mt/dm_matmul.c:6-196 | all cores, any interleaving: from the given memory, the copy is complete before the last core reads it, and C ends as old C plus the product |
| AeMatmul.TransposeColumn | riscv-tools/riscv-tests/mt/ae_matmul.c:39-44 | a core writes its part of one column of the transpose, and after the barrier all of the column is there |
| AeMatmul.MatmulAll | riscv-tools/riscv-tests/mt/ae_matmul.c:38-108 | all cores, any interleaving, from the given memory: the transpose is complete before it is read, and C ends as the product |
| BlockKernel.Block | riscv-tools/riscv-tests/mt/ck_matmul.c:23-56 | the block loops that the kernels share: upwards or downwards along k, on top of C or from zero, a block gains exactly its products |
| Quicksort.Sort | riscv-tools/riscv-tests/benchmarks/qsort/qsort_main.c:67-132 | for every n with enough stack the array ends sorted and a permutation of its input, and the loop terminates; all accesses are in range |
| Quicksort.Partition | riscv-tools/riscv-tests/benchmarks/qsort/qsort_main.c:91-112 | median of three, sentinel scans and exchanges split the subarray around a pivot |
| Quicksort.ScanUp | riscv-tools/riscv-tests/benchmarks/qsort/qsort_main.c:104 | the unguarded upward scan stops inside the subarray at the first element not below the pivot |
| Quicksort.ScanDown | riscv-tools/riscv-tests/benchmarks/qsort/qsort_main.c:105 | the unguarded downward scan stops inside the subarray at the last element not above the pivot |
| Quicksort.InsertionSort | riscv-tools/riscv-tests/benchmarks/qsort/qsort_main.c:42-58 | the segment ends sorted, a permutation of itself, the rest unchanged |
| Quicksort.HalvedSplit | riscv-tools/riscv-tests/benchmarks/qsort/qsort_main.c:113-129 | pushing the larger part keeps every subarray at depth k at most n/2^k long |
| Quicksort.DepthBound | riscv-tools/riscv-tests/benchmarks/qsort/qsort_main.c:113-129 | with n below 11*2^depth a subarray that is still partitioned has fewer than depth frames below it |
| Quicksort.BenchmarkDepth | riscv-tools/riscv-tests/benchmarks/qsort/qsort_main.c:23-26 | so 50 pointers are enough for every n below 11*2^24 |
| RadixSort.Sort | riscv-tools/riscv-tests/benchmarks/rsort/rsort.c:32-99 | 32-bit keys end sorted and a permutation of the input, back in arrIn; the final copy is never taken |
| RadixSort.Scatter | riscv-tools/riscv-tests/benchmarks/rsort/rsort.c:69-89 | the backward unrolled scatter writes the pass's result: each element to the place the prefix sums give it |
| RadixSort.CountDigits | riscv-tools/riscv-tests/benchmarks/rsort/rsort.c:43-58 | the unrolled counting loop and its tail count every digit |
| RadixSort.PrefixSums | riscv-tools/riscv-tests/benchmarks/rsort/rsort.c:60-66 | each bucket ends as the number of elements with a digit not above it |
| RadixSort.PassStable | riscv-tools/riscv-tests/benchmarks/rsort/rsort.c:41-96 | a pass keeps the order of elements with the same digit |
| RadixSort.PassPermutes | riscv-tools/riscv-tests/benchmarks/rsort/rsort.c:41-96 | a pass is a permutation |
| RadixSort.PassesSort | riscv-tools/riscv-tests/benchmarks/rsort/rsort.c:41-96 | k passes sort by the lowest 8k bits |
| RadixSort.FourPassesSort | riscv-tools/riscv-tests/benchmarks/rsort/rsort.c:41-96 | four passes sort 32-bit keys |
| CoreList.Mergesort | riscv-tools/fpga_test4sim/coremark4sim/core_list_join.c:426-496 | on any non-empty list and any comparison: terminates with a NULL-terminated list over the same cells; for every comparison by a rank of the items, and for cmp_idx and cmp_complex, it is the stable merge sort of the cells by that rank; with cmp_idx and no results every item of two or more is regenerated; with cmp_complex every one is cached, and crc, crcstate and crcmatrix are those of a log of the operations that were ahead, each once |
| CoreList.MergeTwo | riscv-tools/fpga_test4sim/coremark4sim/core_list_join.c:454-478 | merging the two runs at p and q in place: the cells in merge order, the runs linked, the rest of the list untouched |
| CoreList.MergePass | riscv-tools/fpga_test4sim/coremark4sim/core_list_join.c:432-484 | one pass merges adjacent runs pairwise |
| CoreList.CalcFunc | riscv-tools/fpga_test4sim/coremark4sim/core_list_join.c:63-95 | the value is the cached one, or the low seven bits of the operation that the low three bits select, or of the data; it replaces the low byte, with bit 7, and the high byte stays; an operation carried out goes into the running CRC and is noted if it is the first of its kind, and a cached item changes neither |
| CoreList.Evaluate | riscv-tools/fpga_test4sim/coremark4sim/core_list_join.c:63-95 | within a sort: the checksum and the two noted results stay those of a log, in which every operation that was ahead at the start is once or still to come |
| CoreList.Compare | riscv-tools/fpga_test4sim/coremark4sim/core_list_join.c:101-118 | cmp_idx, cmp_complex and any comparison by rank tell the order of keys that comparing does not change; cmp_idx without results restores the low bytes |
| MergeRuns.MergeSortSorts | riscv-tools/fpga_test4sim/coremark4sim/core_list_join.c:426-496 | the bottom-up merge sort is sorted, a permutation and stable |
| MergeRuns.WithKeyIs | riscv-tools/fpga_test4sim/coremark4sim/core_list_join.c:426-496 | what stability compares: the elements with a key, all of them and in order |
| ListBench.Find | riscv-tools/fpga_test4sim/coremark4sim/core_list_join.c:370-380 | the first matching cell, or none exactly if no cell matches |
| ListBench.Reverse | riscv-tools/fpga_test4sim/coremark4sim/core_list_join.c:395-404 | the same cells in reverse order, in place |
| ListBench.Remove | riscv-tools/fpga_test4sim/coremark4sim/core_list_join.c:316-327 | the cell after item leaves the list, and the two exchange their info |
| ListBench.UndoRemove | riscv-tools/fpga_test4sim/coremark4sim/core_list_join.c:345-355 | the cell is back where it was |
| ListBench.RemoveAndRestore | riscv-tools/fpga_test4sim/coremark4sim/core_list_join.c:174-186 | remove, the finder, and undo leave cells, infos and data as they were; the checksum takes in the data of the head once for every cell from the one found, or from the second, to the end of the shortened list |
| ListBench.BenchList | riscv-tools/fpga_test4sim/coremark4sim/core_list_join.c:132-199 | for three or more cells, sorted by distinct idx and with equal bytes in data16, the whole benchmark gives back the same list: same head, cells, infos, idx and data16. With finder_idx at or below zero the results stay; above zero there is an order of exactly the items not cached, each once, such that crc is the old one run over their 16-bit results in that order and crcstate and crcmatrix are the first result that is not zero of an item with low bits 0 and 1, unless they were set before. The checksum returned is that of a tour of rounds, sort and walk, and then of the data of the head once for every other cell |
| ListBench.Shuffle | riscv-tools/fpga_test4sim/coremark4sim/core_list_join.c:141-187 | everything before the last sort: the tour, and the results of the sort by data, which runs if and only if finder_idx is above zero |
| ListBench.LogOutcome | riscv-tools/fpga_test4sim/coremark4sim/core_list_join.c:63-95 | what a complete log says of crc, crcstate and crcmatrix, by the data of the items |
| ListBench.FindRounds | riscv-tools/fpga_test4sim/coremark4sim/core_list_join.c:143-170 | the first loop, any number of rounds: only the order of the cells changes, and the points are the sum over the rounds, modulo 2^16 |
| ListBench.RoundMeaning | riscv-tools/fpga_test4sim/coremark4sim/core_list_join.c:143-169 | one round, by the data of the cells: which idx or low byte is looked for, that the first match is found or none exists, the order of the cells after it, and the points: four and bit 9 of odd data, or bit 8 of the second cell less one |
| ListBench.TourParts | riscv-tools/fpga_test4sim/coremark4sim/core_list_join.c:143-181 | there are as many rounds as find_num says, from the given order; then the checksum is that of the points and of the head's data, once per step of the walk |
| ListBench.MiddleMeaning | riscv-tools/fpga_test4sim/coremark4sim/core_list_join.c:172-173 | what the first sort leaves: nothing changed, or the cells in a stable order by result, and every result cached |
| ListBench.WalkMeaning | riscv-tools/fpga_test4sim/coremark4sim/core_list_join.c:174-178 | where the walk starts: at the first match of the list without the item taken out, or at its second cell |
| ListBench.AgainIs | riscv-tools/fpga_test4sim/coremark4sim/core_list_join.c:179-181 | a checksum run over the same word n times is the register run over n copies of its bits |
| Lfsr.Distinct | riscv-tools/riscv-tests/env/v/riscv_test.h:43-44 | 63 successive values of the shift register are distinct, from any non-zero start |
| Pager.FramesDistinct | riscv-tools/riscv-tests/env/v/vm.c:258-267 | no two free-list frames are the same page |
| Pager.Vm.constructor | riscv-tools/riscv-tests/env/v/vm.c:258-267 | the free list and empty tables as vm_boot builds them satisfy the invariant |
| Pager.Vm.HandleFault | riscv-tools/riscv-tests/env/v/vm.c:123-160 | every assertion holds, a free node exists, and the fault changes nothing the user program can read |
| Pager.Vm.Run | riscv-tools/riscv-tests/env/v/vm.c:162-192 | any run of in-range user accesses, with the faults they cause, reads and writes like a flat memory without paging; backing pages stay |
| Pager.Contents.MapInKeeps | riscv-tools/riscv-tests/env/v/vm.c:139-157 | mapping a page keeps the invariant (no page mapped twice, frames apart, clean pages equal to their backing copy, each mapping a copy of its node) and what the program sees |
| Pager.Contents.StoredKeeps | riscv-tools/riscv-tests/env/v/vm.c:128-137 | a store to a dirty page changes one cell of what the program sees |
| Pager.Vm.Evict | riscv-tools/riscv-tests/env/v/vm.c:94-121 | both assertions hold for every page; the page is then equal to its backing copy and its entry on the list |
| Pager.Vm.Exit | riscv-tools/riscv-tests/env/v/vm.c:162-172 | the exit sweep passes all assertions; afterwards user pages hold their backing pages; the list is linked through the entries of the mapped pages in order, ends at its tail if and only if none was mapped, and from its tail leads on to the first node never taken |
| Pager.Vm.Release | riscv-tools/riscv-tests/env/v/vm.c:111-119 | one evicted entry goes behind the tail and keeps its own stale link, in both branches |
| Pager.Vm.PastTail | riscv-tools/riscv-tests/env/v/vm.c:111-119 | past the tail the stale links lead to the first node never taken; the list ends at its tail only if no page was mapped |
| Scanner.StateMeaning | riscv-tools/fpga_test4sim/coremark4sim/core_state.c:184-277 | the automaton is in a state exactly when the text read is in that state's language |
| Scanner.Accepts | riscv-tools/fpga_test4sim/coremark4sim/core_state.c:184-277 | INT exactly for [+-]?[0-9]+, FLOAT exactly for [+-]?[0-9]*.[0-9]*, SCIENTIFIC exactly for a FLOAT with [eE][+-][0-9]+ after it |
| Scanner.InvalidMeaning | riscv-tools/fpga_test4sim/coremark4sim/core_state.c:184-277 | INVALID exactly when no continuation is a number |
| Scanner.TokenMeaning | riscv-tools/fpga_test4sim/coremark4sim/core_state.c:184-277 | where a token ends: past its comma, at the NUL, or past the first character that rules out every number |
| Scanner.StateTransition | riscv-tools/fpga_test4sim/coremark4sim/core_state.c:184-277 | the loop returns that state and position, stays at or before the first NUL, and adds to the transition counters what the next row says |
| Scanner.CountersMeaning | riscv-tools/fpga_test4sim/coremark4sim/core_state.c:184-277 | the increments of the eight counters for a token, by its text and the languages alone: START if the text is not empty; S1 if a sign is followed by something; INT and FLOAT if a proper prefix is one and that prefix with the next character is not; S2 and EXPONENT if a proper prefix ends in the mark, or in its sign; INVALID if the first character begins no number or a character other than a digit follows a scientific prefix; SCIENTIFIC never |
| Scanner.Characters | riscv-tools/fpga_test4sim/coremark4sim/core_state.c:168-277 | the character classes by their characters |
| StateBench.InitState | riscv-tools/fpga_test4sim/coremark4sim/core_state.c:116-166 | the block is as many patterns, each with its comma, as leave room for two zeros, then zeros; the next two rows say which |
| StateBench.Field | riscv-tools/fpga_test4sim/coremark4sim/core_state.c:130-152 | the j-th comma-terminated field of the block, by (seed+j)%8 and (seed+j)/8%4 alone: its text, its length of 4 or 8, and that it is an INT, a FLOAT, a SCIENTIFIC or no beginning of a number |
| StateBench.Tail | riscv-tools/fpga_test4sim/coremark4sim/core_state.c:125-160 | after the last field there are zeros only, at least two, and not enough for the next field, its comma and two zeros |
| StateBench.PatternKinds | riscv-tools/fpga_test4sim/coremark4sim/core_state.c:102-105 | which patterns are what they are called; the third scientific one is an invalid number |
| StateBench.StillTerminated | riscv-tools/fpga_test4sim/coremark4sim/core_state.c:69-74 | with a step of at least two one of the two last zeros survives the corruption |
| StateBench.UndoRestores | riscv-tools/fpga_test4sim/coremark4sim/core_state.c:69-92 | undoing with the same low seed byte restores the block if and only if no visited byte other than a comma became one |
| StateBench.Corrupt | riscv-tools/fpga_test4sim/coremark4sim/core_state.c:70-74 | every step-th byte below blksize that is no comma is XORed with the seed, and no other byte changes |
| StateBench.BenchState | riscv-tools/fpga_test4sim/coremark4sim/core_state.c:43-98 | both scans end inside the block, with the counts of both; the result is the CRC of all counters as 32-bit words on top of the one given, and the block ends corrupted twice |
| StateBench.ScanStep | riscv-tools/fpga_test4sim/coremark4sim/core_state.c:54-66 | how the counts of a scan add up token by token, up to the NUL |
| StateBench.TallyIs | riscv-tools/fpga_test4sim/coremark4sim/core_state.c:54-56 | a final count is how often its state ends a token |
| StateBench.CounterBitsAt | riscv-tools/fpga_test4sim/coremark4sim/core_state.c:94-97 | where the counters are in the message of the checksum: in pairs, the final count first |
| StateBench.BenchInitialised | riscv-tools/fpga_test4sim/coremark4sim/core_state.c:43-92 | on a block filled by core_init_state with step at least two, the two facts together |
| Crc16.CrcU8 | riscv-tools/fpga_test4sim/coremark4sim/core_util.c:142-165 | crcu8 is eight steps of the register on the byte, lowest bit first |
| Crc16.CrcU32 | riscv-tools/fpga_test4sim/coremark4sim/core_util.c:171-175 | crcu32 runs the register over the 32 bits of its word, in the order that the next rows state |
| Crc16.Bits32At | riscv-tools/fpga_test4sim/coremark4sim/core_util.c:171-175 | the i-th bit that crcu32 feeds is bit i of the word |
| Crc16.Word32Message | riscv-tools/fpga_test4sim/coremark4sim/core_util.c:171-175 | for the bytes b0 to b3 of a word, lowest first, it is the checksum of the message b0, b1, b2, b3 |
| Crc16.WordMessage | riscv-tools/fpga_test4sim/coremark4sim/core_util.c:166-170 | likewise crcu16 and the two bytes of its word |
| Crc16.CrcU16 | riscv-tools/fpga_test4sim/coremark4sim/core_util.c:166-170 | crcu16 runs the register over the bits of its word, lowest first |
| Crc16.CrcMessage | riscv-tools/fpga_test4sim/coremark4sim/core_util.c:142-165 | crcu8 folded over a message is the register run over the bits of its bytes in order |
| Crc16.MessageAt | riscv-tools/fpga_test4sim/coremark4sim/core_util.c:142-165 | the bits of a message: byte by byte, the lowest of each first |
| Crc16.CheckValue | riscv-tools/fpga_test4sim/coremark4sim/core_util.c:142-165 | the check value 0xBB3D of this CRC for the nine digits |
| Crc16.Linear | riscv-tools/fpga_test4sim/coremark4sim/core_util.c:142-165 | the register is linear over GF(2) in message and state |
| Crc16.Bijective | riscv-tools/fpga_test4sim/coremark4sim/core_util.c:142-165 | for every message the state before and after determine each other |
| Crc16.IsRemainder | riscv-tools/fpga_test4sim/coremark4sim/core_util.c:142-165 | the register is the remainder of long division by x^16+x^15+x^2+1, the reflected 0xA001 |
| Crc16.Burst | riscv-tools/fpga_test4sim/coremark4sim/core_util.c:142-165 | bit strings that differ within at most 16 consecutive bits never have the same checksum |
| Crc16.BurstMessages | riscv-tools/fpga_test4sim/coremark4sim/core_util.c:142-165 | the same for messages of bytes |
| Crc32.ReversedBits | riscv-tools/riscv-tests/debug/programs/checksum.c:6-13 | reverse puts bit k at place 31-k |
| Crc32.Involutive | riscv-tools/riscv-tests/debug/programs/checksum.c:6-13 | reverse undoes itself |
| Crc32.Crc32a | riscv-tools/riscv-tests/debug/programs/checksum.c:20-38 | crc32a is, for every message, the table-driven reflected CRC-32 of section 8 of RFC 1952 |
| Crc32.CheckValue | riscv-tools/riscv-tests/debug/programs/checksum.c:20-38 | the check value 0xCBF43926 of CRC-32 for the nine digits |
| Towers.Push | riscv-tools/riscv-tests/benchmarks/towers/towers_main.c:53-71 | the first free node becomes the head of the list with the value; both stay linked lists |
| Towers.Pop | riscv-tools/riscv-tests/benchmarks/towers/towers_main.c:73-93 | the head node goes back to the front of the free list |
| Towers.Hanoi.SolveH | riscv-tools/riscv-tests/benchmarks/towers/towers_main.c:140-158 | the n upper discs move in order, in 2^n-1 moves counted in 32 bits, none onto a smaller disc, no empty peg or free list popped; the node pool stays partitioned |
| Towers.Hanoi.Solve | riscv-tools/riscv-tests/benchmarks/towers/towers_main.c:160-163 | from all discs on the first peg to all on the last |
| Towers.Hanoi.Clear | riscv-tools/riscv-tests/benchmarks/towers/towers_main.c:129-138 | all nodes return to the free list and the discs to the first peg |
| Towers.Hanoi.Verify | riscv-tools/riscv-tests/benchmarks/towers/towers_main.c:165-194 | 0 exactly if all discs are on the last peg, in order, and the count is what the 32-bit shift says; 6 exactly if only the count is wrong |
| Towers.ShiftTells | riscv-tools/riscv-tests/benchmarks/towers/towers_main.c:189 | the 32-bit 2^n-1 of the check is the wrapped number of moves if and only if n is below 32 |
| Towers.Benchmark | riscv-tools/riscv-tests/benchmarks/towers/towers_main.c:201-233 | for every n of at least 1 and every pool of at least n nodes the program returns 0 for n below 32, and 6 from there on |
| Quantise.Exact1 | c/insn.c:68-75 | the shift form of quant_conv1 is acc*257/131072 rounded down, exactly |
| Quantise.QuantiseConv1 | c/insn.c:68-76 | the byte returned is acc*257/131072, rounded down, and the zero point, or the end of the byte that this is beyond |
| Quantise.QuantiseConv2 | c/insn.c:81-88 | the byte returned keeps to acc*19/4096 and the zero point within the bounds of Slack2 unless it is an end of the byte, and at an end the value is on that side |
| Quantise.QuantiseFc1 | c/insn.c:95-101 | likewise with acc*5/1024 and Slack3 |
| Quantise.Digits2 | c/insn.c:81-88 | for an accumulator of 4096q+1024u+256s+w the result is exactly 19q+5u+s and the zero point, cut off at the ends |
| Quantise.Digits3 | c/insn.c:95-101 | for 1024q+256s+w exactly 5q+s and the zero point, cut off at the ends |
| Quantise.Relu | c/insn.c:103-106 | the larger of the value and the zero point |
| Quantise.Slack2 | c/insn.c:81-88 | the shift form of quant_conv2 is within -3072/4096 and 7149/4096 of acc*19/4096 |
| Quantise.Slack3 | c/insn.c:95-101 | the shift form of quant_fc1 is within 0 and 2043/1024 of acc*5/1024 |
| Quantise.Scales | c/insn.c:64-101 | the distance to 1/510, 1/216 and 1/206: at most 0.0016, 0.2 and 0.6 per cent of the accumulator, and the rounding |
| Quantise.QuantMonotone | c/insn.c:68-101 | all three are monotone in the accumulator, the subtractive one included |
| Quantise.PoolCommutes1 | c/insn.c:127-135 | pooling int32 values, then requantising and rectifying, is requantising and rectifying, then pooling |
| Quantise.PoolCommutes2 | c/insn.c:146-154 | the same for the second stage |
| Quantise.Pool | c/insn.c:40-56 | the running maximum of four |
| Cnn.OrderIrrelevant | c/insn.c:108-189 | every score is the same in the order of the trained network, for every image and weights |
| Cnn.TapSum | c/insn.c:13-16 | the 3 by 3 kernel sum, without 32-bit overflow |
| Cnn.Conv2Cal | c/insn.c:24-38 | an input channel is added in place, the bias for the first channel only, without overflow |
| Cnn.TapsBound | c/insn.c:13-16 | a kernel sum of t products is at most 97665*t, for any signed bytes and zero points |
| Cnn.NextTap | c/insn.c:13-16 | product (k, l) of a kernel sum is pixel (i+k, j+l) less its zero point times weight 3k+l less its own |
| Cnn.ReadStage1 | c/insn.c:127-135 | an element of the first stage, from the four accumulators of its block |
| Cnn.ReadStage2 | c/insn.c:146-154 | an element of the second stage, in both orders |
| Cnn.MoreChannels | c/insn.c:137-144 | what each input channel adds to an output channel, and the bias |
| Cnn.FlatAt | c/insn.c:156-161 | input 4c+2y+x of the dense layer is element (y, x) of plane c |
| Cnn.NextDense1 | c/insn.c:163-169 | product j of hidden value i: weight 20i+j and input j, each less its zero point |
| Cnn.NextDense2 | c/insn.c:182-188 | product j of score i: weight 10i+j and hidden value j, each less its zero point |
| Cnn.NormalCnn | c/insn.c:108-205 | the index returned is the first maximum of the ten scores of the trained order, for every image; no accumulator overflows 32 bits |
| IntelHex.IhexLine | riscv-tools/riscv-tests/debug/gdbserver.py:39-51 | for any address and type and up to 127 bytes the line printed, an error from 128 bytes on; with two bytes of address and one of type it is a colon and all bytes in hexadecimal with the checksum last |
| IntelHex.Sample | riscv-tools/riscv-tests/debug/gdbserver.py:39-51 | one line in full, character by character |
| IntelHex.IhexParse | riscv-tools/riscv-tests/debug/gdbserver.py:53-62 | the loop reads the data bytes one after the other, or fails; each number may have blanks, a sign and a prefix, as int takes it, and a negative length reads no data |
| IntelHex.RoundTrip | riscv-tools/riscv-tests/debug/gdbserver.py:39-62 | parsing a printed line gives back type, address and data if and only if the address is below 0x10000 and the type below 0x100 |
| IntelHex.ChecksumZero | riscv-tools/riscv-tests/debug/gdbserver.py:39-51 | all bytes of the line of a record that fits add up to 0 modulo 256 |

## Left out
- BlockedMultiply.Kloop: the twenty scalar accumulators are one 4 by 5 local array, and a block update is a loop over it instead of twenty statements.
- BlockKernel.Block: likewise the unrolled scalars of the multi-core kernels are a local array; the order of the loads within one block is that of the loops here.
- CacheBlocking.Mm: exact arithmetic over the reals; rounding of fma and the size of size_t are not modelled.
- DmMatmul.MatmulAll: stated for lda and lda/ncores multiples of 4, and a B1 of lda*lda elements; nothing is claimed for other sizes.
- AeMatmul.MatmulAll: stated for ncores dividing lda, 8 dividing lda, at least one row to a core, and a BB of lda*lda elements, which is what the loops assume.
- Interleaving.Replay: memory is sequentially consistent, as between the fences of the barrier; a core's program enters through the trace of its accesses.
- Quicksort.Sort: the pointers l, ir and those on the stack are indices.
- RadixSort.Sort: indices are unbounded; keys are 32 bits wide.
- CoreList.CalcFunc: the matrix and state benchmarks it calls are an arbitrary function of the item, which covers results that depend on the checksum so far because a sort asks for each item once and then finds it cached; what they do to their own memory is not modelled.
- CoreList.Mergesort: the wrap-around of insize for lists of 2^31 cells is not modelled.
- ListBench.BenchList: lists whose idx repeat are not claimed to be restored; with find_num at or below zero and a negative finder_idx the low byte looked for in the middle is an uninitialised variable in C, and any value here.
- Pager.Vm.Run: addresses in range; illegal instructions, TLB flushes, PMP and CSR set-up and the coherence torture of other harts are not modelled; kernel addresses are distinct pages.
- StateBench.InitState: size 0, which would wrap round, is excluded.
- Scanner.StateTransition: counters are unbounded, and taken as 32-bit words where StateBench.BenchState feeds them to the checksum.
- Towers.Hanoi.Verify: the move count wraps round and the shift looks at the low five bits of its count, as on the machine; C leaves both undefined from 31 discs on. Sizes are unbounded.
- Towers.Hanoi.Init: the list_init calls on pegs that are empty already are not repeated.
- Cnn.NormalCnn: weights and biases are parameters (any signed bytes, and biases up to 2^30); the NICE instructions and nice_cnn run in hardware that is not part of this model.
- Agreement with the trained network after the two convolution stages: the C code applies no relu after fc1 and the Python code does.
- IntelHex.IhexParse: of what int(s, 16) takes, underscores and characters beyond ASCII are left out; the checksum is not looked at, as in the source.
- crc32a's unsigned length is unbounded; no burst property is stated for it.
- cf_matmul.c and cm_matmul.c: both cores update the same elements of C without synchronisation, so there is no result to claim; the other variants repeat those modelled.
- Dhrystone, vvadd, median, spmv, timers, printing, system calls, the OpenOCD and GDB drivers and the training scripts.
