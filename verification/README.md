# Proofs for the parallel-programming handbook

This project models the algorithms and protocols at the centre of the handbook's
C++ code and proves what the code is meant to guarantee, for every input size,
every number of threads and every interleaving. `dafny verify dfyconfig.toml`
checks all of it.

**N-queens (`1_benchmark/3_eightQueen`).** One number, defined in `Queens` as the
size of a set of boards, and every solver in the directory proved to return it:
brute force over `next_permutation` (`BruteForce`), recursive and explicit-stack
backtracking over marking arrays (`Backtracking`), four bitmask searches on 32-bit
words (`BitMask`, `BitQueens`), and two dancing-links solvers on an in-place node
pool (`DancingLinks`, with `Rings`, `NodePool` and `PoolBuilder` for the links,
`ExactCover` for Algorithm X and `QueensCover` for the matrix). The solvers are
methods over arrays and class fields, with the loops and stacks of the source.
`SolveMt` adds the threads, the slices and the mirror symmetry, and states exactly
for which sizes each combination is right.

**Lock-free structures (`6_lockFree`).** `TaggedStack`, `MpscQueue` and `SpscRing`
are transition systems with one step per atomic access. Addresses are reused after
delete, a read through a freed pointer returns anything, compare-exchange may fail
spuriously, and loads may be stale, down to the newest value the same thread has
seen. The stack has two flags, whether heads are tagged and whether a failed
exchange orders the reads that follow it (the source asks for relaxed order there).
Every run keeps the list exactly when both are set, or at most one thread uses the
stack (`SafeIff`); under that condition the tagged stack is linearisable.

**Thread pool and its clients.** `ThreadPool` has the mutex, the wait-set, spurious
wakeups, notifications after unlock, and the destructor. `NestedWait` is the
erosion-or-deadlock question on top of a FIFO pool, answered by exact conditions.
`CallbackPipeline` is the condition-variable reducer; a flag switches to the
ordering its comment warns about, which can hang exactly when there is a task.

**Barriers, slots, semaphores, monitors.** `BarrierTeam` is the double-barrier
team; `SlotReduction` and `FlatTiling` are the grain-aligned reductions over
arbitrary partitions; `SemaphoreRW` and `SemaphoreBuffer` are the two semaphore
protocols; `ReadWriteLock` and `OneSlot` are the two monitors. `Sums`, `Counting`
and `RingSlots` hold shared arithmetic, `Histories` the bookkeeping of values that
calls carry and of logs that several threads write.

In every protocol module `Enabled` and `Step` give the possible steps, a run is a
list of steps, and the main results quantify over all runs from the initial state.
Progress is stated as: a decreasing measure bounds every run, and a state in which
no step of the system's own is possible is a finished one. The rows `When...Wait`
and `CallsNeverWait` say exactly what holds a single thread up. What a structure
has taken in is tied to the arguments of the calls in the run itself. Where a
result requires the module's invariant `Inv`, the row named `RunKeeps` shows that
every reachable state satisfies it (in `TaggedStack`, `TaggedRunKeeps`, under the
condition above). Spurious wakeups are steps like any other; where they could go
on for ever, the bound is stated for runs without them.

Where code and text disagree the code is followed:

- `CONTEXT.md:18` (and the comment at case2_parallelismErosion.cpp:88-90) call
  deadlock certain when parents >= workers. With two or more workers it is only
  possible; see `NestedWait.DeadlockPossibleIff` and `NestedWait.DeadlockCertainIff`.
- The `.cc` sub-solvers and `solve_bitopt_sub` return 0 for N = 1, while
  `solve_backtracking_sub` returns 1; see `SolveMt.SplitIsExact`.
- `backtracking` in nqueens_opt.cc narrows an int64 to int; see `SolveMt.SplitNarrow`.
- The comment at nqueens.h:283 limits int64 counts to N <= 16; they are safe to 20.
- lockfree_queue.cpp:161 speaks of CAS; `push` is an unconditional exchange.
- The static_assert of `SPSCQueue` admits capacity 0; see `SpscRing.AdmittedSafeIffPositive`.
- aba_problem.cpp:184 and 193 take the tags as enough. The failed exchange in pop is
  relaxed (line 230), so by the letter of the C++ memory model its retry may read a
  stale next pointer and lose nodes, tags or not; see `TaggedStack.UnorderedStackBreaks`
  and `TaggedStack.SafeIff`.

## Model

| member | source | states |
|---|---|---|
| `Queens.Branch` | 1_benchmark/3_eightQueen/src/nqueens.cc:63-80 | the solutions below a partial board are split exactly by the column of the next queen |
| `Queens.CompleteHasOne` | 1_benchmark/3_eightQueen/src/nqueens.cc:67-68 | a full safe board counts as one solution |
| `Queens.UnsafeHasNone` | 1_benchmark/3_eightQueen/src/nqueens.cc:66 | a board with two attacking queens has no completion, so skipping it loses nothing |
| `Queens.MirrorCount` | 1_benchmark/3_eightQueen/src/nqueens.h:459-460 | first-row columns c and N-1-c lead to equally many solutions, by an explicit bijection |
| `Queens.CountBound` | 1_benchmark/3_eightQueen/src/nqueens.h:32-37 | at most (N - rows placed)! solutions lie below any partial board |
| `Queens.CountFitsInt64` | 1_benchmark/3_eightQueen/src/nqueens.h:286-289 | for every N up to 20 no count reaches the int64 range (the comment at line 283 says 16; 20 is safe) |
| `BruteForce.NextPermutation` | 1_benchmark/3_eightQueen/src/nqueens.cc:42 | in place: the result is the next permutation in dictionary order with none between, and false is returned exactly when there is none |
| `BruteForce.SteppedFollows` | 1_benchmark/3_eightQueen/src/nqueens.cc:42 | raising the pivot least and turning the falling tail round gives the immediate successor |
| `BruteForce.Feasible` | 1_benchmark/3_eightQueen/src/nqueens.cc:20-38 | the two marking loops accept a permutation if and only if no two queens attack each other |
| `BruteForce.BeforeNext` | 1_benchmark/3_eightQueen/src/nqueens.cc:19-42 | moving to the successor accounts for exactly the board left behind, and strictly fewer boards remain |
| `BruteForce.IotaFirst` | 1_benchmark/3_eightQueen/src/nqueens.cc:17-18 | the starting permutation has no solution before it |
| `BruteForce.Bruteforce` | 1_benchmark/3_eightQueen/src/nqueens.cc:15-44 | the do-while loop over permutations returns the number of N-queens solutions, for every N including 0 |
| `Backtracking.TestIsSafe` | 1_benchmark/3_eightQueen/src/nqueens.h:81-82 | the three-array test succeeds exactly when the queen attacks none of those placed |
| `Backtracking.MarksPush` | 1_benchmark/3_eightQueen/src/nqueens.h:84-86 | setting three marks gives the arrays of the longer board |
| `Backtracking.MarksPop` | 1_benchmark/3_eightQueen/src/nqueens.h:102-105 | clearing them gives back exactly the arrays of the shorter board, although lines may be shared in principle |
| `Backtracking.BackTracking.Search` | 1_benchmark/3_eightQueen/src/nqueens.cc:63-80 | adds the number of completions of the marked board and leaves every mark as it was |
| `Backtracking.RecursiveBacktracking` | 1_benchmark/3_eightQueen/src/nqueens.cc:83-87 | returns the N-queens count |
| `Backtracking.RecursiveSub` | 1_benchmark/3_eightQueen/src/nqueens_mt.cc:46-55 | counts the solutions with first queen in column i, except that N = 1 gives 0 |
| `Backtracking.StackSearch` | 1_benchmark/3_eightQueen/src/nqueens.h:62-108 | the explicit stack counts the completions of the first board; stack and marks always describe one partial board, indices stay in range, a decreasing measure ends the loop, and the marks end as they began |
| `Backtracking.SolveBacktrackingSerial` | 1_benchmark/3_eightQueen/src/nqueens.h:39-111 | returns the N-queens count for every table size kMax >= N |
| `Backtracking.SolveBacktrackingSub` | 1_benchmark/3_eightQueen/src/nqueens.h:397-457 | returns the count below a first queen at col0, N = 1 included |
| `BitMask.CountTrailingZeros` | 1_benchmark/3_eightQueen/src/nqueens.h:319 | returns the position of the lowest set bit of a non-zero word |
| `BitMask.ClearLowest` | 1_benchmark/3_eightQueen/src/nqueens.h:324 | x & (x - 1) clears the lowest set bit and no other |
| `BitQueens.TracksPush` | 1_benchmark/3_eightQueen/src/nqueens.h:327-329 | the or-and-shift updates keep the masks equal to the columns and diagonals attacked in the next row; bits shifted out never matter |
| `BitQueens.AvailIsCandidates` | 1_benchmark/3_eightQueen/src/nqueens.h:331 | the available word has exactly the bits of the safe columns |
| `BitQueens.ResumeAfter` | 1_benchmark/3_eightQueen/src/nqueens.h:313-315 | after a pop the word holds exactly the safe columns beyond column i |
| `BitQueens.NextCandidate` | 1_benchmark/3_eightQueen/src/nqueens.h:319-324 | the lowest bit is the first safe column and dropping it leaves the rest |
| `BitQueens.BitStackSearch` | 1_benchmark/3_eightQueen/src/nqueens.h:301-333 | the bitmask loop counts the completions of its first board |
| `BitQueens.SolveBitoptSerial` | 1_benchmark/3_eightQueen/src/nqueens.h:286-336 | returns the N-queens count for every N below the word width |
| `BitQueens.SolveBitoptSub` | 1_benchmark/3_eightQueen/src/nqueens.h:342-386 | returns the count below a first queen at col0, except that N = 1 gives 0 |
| `BitQueens.RecursiveBits` | 1_benchmark/3_eightQueen/src/nqueens_opt_mt.cc:30-43 | the recursive search with masks by value counts the completions of the board |
| `BitQueens.RecursiveBitsSub` | 1_benchmark/3_eightQueen/src/nqueens_opt_mt.cc:46-52 | counts below a first queen in column i, except that N = 1 gives 0 |
| `BitQueens.UnmaskedIsCandidates` | 1_benchmark/3_eightQueen/src/nqueens_opt.cc:37-38 | without a high-bit mask the word is still right below N, whatever stands above |
| `BitQueens.RowMasks.Search` | 1_benchmark/3_eightQueen/src/nqueens_opt.cc:36-57 | adds the completions and leaves the masks of all rows up to its own unchanged |
| `BitQueens.RowMaskSub` | 1_benchmark/3_eightQueen/src/nqueens_opt.cc:60-69 | counts below a first queen in column i, except that N = 1 gives 0 |
| `Rings.RingRemove` | 1_benchmark/3_eightQueen/src/nqueens.h:227-228 | unlinking a node leaves a circular list without it, readable both ways |
| `Rings.RingAppend` | 1_benchmark/3_eightQueen/src/nqueens.h:250-255 | put_left appends to a circular list |
| `NodePool.RehookUndoes` | 1_benchmark/3_eightQueen/src/nqueens.h:241-243 | hooking a node back restores every link and size that unhooking it changed |
| `NodePool.ShowUndoes` | 1_benchmark/3_eightQueen/src/nqueens.h:246-247 | relinking a header restores the header ring exactly |
| `NodePool.HidingKeepsLists` | 1_benchmark/3_eightQueen/src/nqueens.h:229-235 | while rows are being hidden every vertical list stays intact and every size equals its length |
| `NodePool.CoverKeepsInv` | 1_benchmark/3_eightQueen/src/nqueens.h:226-236 | after cover the lists hold exactly the rows that meet no covered column |
| `PoolBuilder.RowKeepsInv` | 1_benchmark/3_eightQueen/src/nqueens.h:163-169 | four new nodes and three put_left calls extend the pool by exactly one matrix row |
| `PoolBuilder.HeadersDone` | 1_benchmark/3_eightQueen/src/nqueens.h:141-159 | the header loops build a pool for the empty matrix |
| `DancingLinks.Solver.ByNameOrder` | 1_benchmark/3_eightQueen/src/nqueens.h:138-172 | the constructor builds a pool that represents the whole 6N-column matrix |
| `DancingLinks.Solver.InterleavedOrder` | 1_benchmark/3_eightQueen/src/nqueens_dl.cc:28-60 | so does the other column and square order, for its own matrix |
| `DancingLinks.Solver.NewRow` | 1_benchmark/3_eightQueen/src/nqueens.h:196-209 | appends a node to its column and counts it |
| `DancingLinks.Solver.PutLeftOf` | 1_benchmark/3_eightQueen/src/nqueens.h:250-255 | exactly the four link writes of put_left |
| `DancingLinks.Solver.Cover` | 1_benchmark/3_eightQueen/src/nqueens.h:226-236 | the pool afterwards is the covered pool, all other links unchanged |
| `DancingLinks.Solver.Uncover` | 1_benchmark/3_eightQueen/src/nqueens.h:238-248 | the exact inverse of cover: every link and size of the pool is what it was before |
| `DancingLinks.Solver.GetMinColumn` | 1_benchmark/3_eightQueen/src/nqueens.h:211-224 | an active header that is a shortest one or has at most one row |
| `DancingLinks.Solver.CoverOthers` | 1_benchmark/3_eightQueen/src/nqueens.h:265 | covers the other columns of the chosen row |
| `DancingLinks.Solver.UncoverOthers` | 1_benchmark/3_eightQueen/src/nqueens.h:267 | undoes that exactly |
| `DancingLinks.Solver.SolveImpl` | 1_benchmark/3_eightQueen/src/nqueens.h:257-270 | adds the number of exact covers that remain and leaves every link and size of the node pool as found, at any depth |
| `DancingLinks.Solver.Solve` | 1_benchmark/3_eightQueen/src/nqueens.h:174-178 | returns the number of exact covers of the whole matrix |
| `DancingLinks.SolveDancingLinks` | 1_benchmark/3_eightQueen/src/nqueens.h:275-278 | returns the N-queens count, 0 included |
| `DancingLinks.SolveInterleaved` | 1_benchmark/3_eightQueen/src/nqueens_dl.cc:184-189 | the second solver returns the same number |
| `ExactCover.BranchOnColumn` | 1_benchmark/3_eightQueen/src/nqueens.h:262-268 | branching on any uncovered primary column counts every exact cover exactly once |
| `ExactCover.NothingLeft` | 1_benchmark/3_eightQueen/src/nqueens.h:258-260 | with no primary column left there is exactly one cover |
| `QueensCover.ClashIsAttack` | 1_benchmark/3_eightQueen/src/nqueens.h:163-166 | two squares of different rows share a matrix column exactly when queens on them attack each other, in both layouts |
| `QueensCover.CoverIsBoard` | 1_benchmark/3_eightQueen/src/nqueens.h:148-170 | every exact cover of the matrix is a queens placement |
| `QueensCover.BoardIsCover` | 1_benchmark/3_eightQueen/src/nqueens.h:148-170 | every queens placement is an exact cover: 2N columns once, diagonals at most once |
| `QueensCover.CoversAreQueens` | 1_benchmark/3_eightQueen/src/nqueens.h:114-115 | the matrix has exactly as many covers as there are N-queens placements |
| `SolveMt.SliceBound` | 1_benchmark/3_eightQueen/src/nqueens.h:485-502 | no slice starts beyond the last sub-problem |
| `SolveMt.SlicesBalanced` | 1_benchmark/3_eightQueen/src/nqueens.h:484-502 | no thread gets more than one sub-problem more than a later one, and never fewer |
| `SolveMt.FilledAdvance` | 1_benchmark/3_eightQueen/src/nqueens.h:494-500 | a worker writes an entry inside the results that nobody wrote before, and no other entry changes |
| `SolveMt.RunThreads` | 1_benchmark/3_eightQueen/src/nqueens.h:485-504 | in any interleaving of spawning and workers every sub-problem is solved once into its own entry |
| `SolveMt.WeightedTotal` | 1_benchmark/3_eightQueen/src/nqueens.h:506-514 | doubling all but the middle column adds up to the full first row |
| `SolveMt.SplitIsExact` | 1_benchmark/3_eightQueen/src/nqueens.h:461-516 | the split total is the N-queens count if and only if N >= 2, or N = 1 with the backtracking sub-solver |
| `SolveMt.PartialFits` | 1_benchmark/3_eightQueen/src/nqueens.h:506-514 | no running total exceeds N!, so int64 holds it for N up to 20 |
| `SolveMt.SolveMt` | 1_benchmark/3_eightQueen/src/nqueens.h:461-516 | for every thread count >= 1, with and without symmetry: the result is the split total, right exactly under that condition |
| `SolveMt.SplitSequential` | 1_benchmark/3_eightQueen/src/nqueens_opt_mt.cc:55-65 | the sequential split of the .cc files is right if and only if N >= 2 |
| `SolveMt.AtomicMt` | 1_benchmark/3_eightQueen/src/nqueens_opt_mt.cc:67-87 | one thread per column adding into an atomic total, in any order, gives the same |
| `SolveMt.SplitNarrow` | 1_benchmark/3_eightQueen/src/nqueens_opt.cc:71-81 | the int64 total returned as int is right if and only if N >= 2 and the count fits 31 bits, which N <= 12 guarantees |
| `TaggedStack.TaggedStackIsLinearisable` | 0_tutorial/1_multiThread/6_lockFree/aba_problem.cpp:204-238 | any number of threads and any interleaving, with failed exchanges ordered (or one thread): exchanges, logged with the data of the node they put on or took off, form a legal sequential history held by the heap; the values passed to push are, as a bag, those returned by pops, those taken and not yet returned, those on the list and those not yet published; each pop has an exchange of its own; no (ptr, tag) pair recurs |
| `TaggedStack.QuietStackBalances` | 0_tutorial/1_multiThread/6_lockFree/aba_problem.cpp:204-238 | under the same condition, with every call returned, the values passed to push are the values pops returned plus the values on the list |
| `TaggedStack.TaggedRunBooks` | 0_tutorial/1_multiThread/6_lockFree/aba_problem.cpp:211-237 | the books (claims of pops on exchanges, balance of values, versions seen) are right along every run whose failed exchanges are ordered, against the values passed to push |
| `TaggedStack.TaggedRunKeeps` | 0_tutorial/1_multiThread/6_lockFree/aba_problem.cpp:204-238 | the whole invariant of the tagged stack (list, ownership of nodes, versions, locals) holds along every run whose failed exchanges are ordered |
| `TaggedStack.Conservation` | 0_tutorial/1_multiThread/6_lockFree/aba_problem.cpp:204-238 | in a legal history pushed values are popped values plus contents, as multisets |
| `TaggedStack.CasPushKeeps` | 0_tutorial/1_multiThread/6_lockFree/aba_problem.cpp:211-221 | a push takes effect at its successful exchange |
| `TaggedStack.CasPopKeeps` | 0_tutorial/1_multiThread/6_lockFree/aba_problem.cpp:223-237 | a pop takes effect at its successful exchange if the next pointer it read is current |
| `TaggedStack.TagsKeepPopsFresh` | 0_tutorial/1_multiThread/6_lockFree/aba_problem.cpp:227-230 | with tags, in every state that satisfies the invariant (kept by every run whose failed exchanges are ordered), an exchange can only succeed if the next pointer, read unprotected, is still current |
| `TaggedStack.ReadsAreCurrent` | 0_tutorial/1_multiThread/6_lockFree/aba_problem.cpp:227-230 | a read of the current head's next pointer returns what memory holds if failed exchanges are ordered or there is one thread |
| `TaggedStack.OrdersKept` | 0_tutorial/1_multiThread/6_lockFree/aba_problem.cpp:211-234 | the order of publication kept by every step: a thread that follows the head is ordered after its version, and a node on the list was pushed no later than the newest version |
| `TaggedStack.StackIffPopsFresh` | 0_tutorial/1_multiThread/6_lockFree/aba_problem.cpp:51-63 | tagged or not, with failed exchanges ordered or one thread, the heap holds the stack at every step of a run if and only if every pop exchange installs its head's current next pointer |
| `TaggedStack.StalePopBreaks` | 0_tutorial/1_multiThread/6_lockFree/aba_problem.cpp:54-55 | a stale pop breaks the list at that very step |
| `TaggedStack.UntaggedStackBreaks` | 0_tutorial/1_multiThread/6_lockFree/aba_problem.cpp:76-82 | with two or more threads, ordered or not, a concrete reachable run of the untagged stack after which the head points at a deleted node |
| `TaggedStack.UnorderedStackBreaks` | 0_tutorial/1_multiThread/6_lockFree/aba_problem.cpp:223-234 | with two or more threads and the relaxed failed exchange, a concrete reachable run of the tagged stack whose retried pop reads a stale next pointer, leaving the head null and a node lost |
| `TaggedStack.SafeIff` | 0_tutorial/1_multiThread/6_lockFree/aba_problem.cpp:184-238 | every run keeps the list if and only if heads are tagged and failed exchanges are ordered, or at most one thread uses the stack |
| `TaggedStack.PopsReturnTheirOwn` | 0_tutorial/1_multiThread/6_lockFree/aba_problem.cpp:231-234 | a pop returns the value its exchange removed, and no other call or earlier result has that exchange |
| `TaggedStack.EmptyPopsSawEmpty` | 0_tutorial/1_multiThread/6_lockFree/aba_problem.cpp:224-236 | a pop that returns false saw an empty version of the head, no older than anything its thread had seen or published |
| `TaggedStack.AccessesAreLive` | 0_tutorial/1_multiThread/6_lockFree/aba_problem.cpp:211-237 | every access but the read of next, and every delete, is to a live node owned by that thread alone |
| `TaggedStack.NoLeak` | 0_tutorial/1_multiThread/6_lockFree/aba_problem.cpp:223-237 | when all calls have returned exactly the nodes of the stack are allocated |
| `TaggedStack.SoloFinishes` | 0_tutorial/1_multiThread/6_lockFree/aba_problem.cpp:211-237 | in either variant and every reachable state, a call carried on by its thread alone always has a next step and at most six of them, and between calls either call can begin |
| `TaggedStack.SoloPopTakesTop` | 0_tutorial/1_multiThread/6_lockFree/aba_problem.cpp:223-237 | a pop that starts with the newest head and runs alone returns the top of the stack and removes it, or changes nothing if the stack is empty |
| `TaggedStack.SoloPushTops` | 0_tutorial/1_multiThread/6_lockFree/aba_problem.cpp:211-221 | a push that runs alone puts its value on top |
| `TaggedStack.NewestAlways` | 0_tutorial/1_multiThread/6_lockFree/aba_problem.cpp:204-238 | what the solo runs start from, the newest version being the head and nobody ahead of it, holds in every reachable state of either variant |
| `MpscQueue.QueueIsFifo` | 0_tutorial/1_multiThread/6_lockFree/lockfree_queue.cpp:162-179 | popped values are a prefix of the tail-exchange order in every interleaving; that order holds, for each producer, the values passed to its pushes in its own order; once no push is half done exactly the unpopped nodes are reachable from head_ |
| `MpscQueue.RunKeeps` | 0_tutorial/1_multiThread/6_lockFree/lockfree_queue.cpp:147-184 | the invariant the other rows start from holds in every reachable state |
| `MpscQueue.WhyPopFails` | 0_tutorial/1_multiThread/6_lockFree/lockfree_queue.cpp:169-174 | try_pop returns false if and only if, at its load, everything is popped or the push of the very next value is half done; otherwise it goes on to copy a value |
| `MpscQueue.CallsNeverWait` | 0_tutorial/1_multiThread/6_lockFree/lockfree_queue.cpp:162-179 | in every state the consumer, and every producer inside a call, has exactly one next step, whatever the others are doing |
| `MpscQueue.PopAlone` | 0_tutorial/1_multiThread/6_lockFree/lockfree_queue.cpp:168-179 | try_pop undisturbed takes at most five steps and returns the oldest value, or false with nothing changed when there is none it could return |
| `MpscQueue.PushAlone` | 0_tutorial/1_multiThread/6_lockFree/lockfree_queue.cpp:162-166 | push undisturbed takes three steps and its value is the newest |
| `MpscQueue.TouchesLiveNodes` | 0_tutorial/1_multiThread/6_lockFree/lockfree_queue.cpp:162-179 | no node is read, written or deleted after its delete |
| `MpscQueue.ExchangeKeeps` | 0_tutorial/1_multiThread/6_lockFree/lockfree_queue.cpp:164 | the exchange appends to the queue before the node is linked |
| `MpscQueue.LinkKeeps` | 0_tutorial/1_multiThread/6_lockFree/lockfree_queue.cpp:165 | the delayed link goes exactly where it belongs, however late |
| `MpscQueue.StoreKeeps` | 0_tutorial/1_multiThread/6_lockFree/lockfree_queue.cpp:175-176 | moving head_ pops the oldest value |
| `MpscQueue.DeleteKeeps` | 0_tutorial/1_multiThread/6_lockFree/lockfree_queue.cpp:177 | the old sentinel is no longer reachable by anyone |
| `MpscQueue.Destroy` | 0_tutorial/1_multiThread/6_lockFree/lockfree_queue.cpp:154-159 | the destructor frees every node |
| `SpscRing.MaskIsMod` | 0_tutorial/1_multiThread/6_lockFree/lockfree_queue.cpp:27-28 | masking with Capacity - 1 is the remainder for all indices if and only if the static_assert condition holds |
| `SpscRing.RingRefinesFifo` | 0_tutorial/1_multiThread/6_lockFree/lockfree_queue.cpp:39-66 | every step does to the waiting items what a FIFO of Capacity - 1 items allows |
| `SpscRing.RingIsFifo` | 0_tutorial/1_multiThread/6_lockFree/lockfree_queue.cpp:39-66 | in every interleaving and with every choice of stale acquire loads: pushed is exactly the items passed to the calls that reached their store, in order, popped is a prefix of that, at most Capacity - 1 wait, no slot is read and written at once |
| `SpscRing.PushedIsPassed` | 0_tutorial/1_multiThread/6_lockFree/lockfree_queue.cpp:39-51 | from any state, what a run pushes is the arguments of its calls that got as far as the store of write_pos_, in order |
| `SpscRing.CallsNeverWait` | 0_tutorial/1_multiThread/6_lockFree/lockfree_queue.cpp:39-66 | neither side ever waits: each can always take its next step with the newest index, comes nearer to the end of its call by it, and is not set back by the other side |
| `SpscRing.RunKeeps` | 0_tutorial/1_multiThread/6_lockFree/lockfree_queue.cpp:26-77 | the invariant the other rows start from holds in every reachable state |
| `SpscRing.PushFailsIffSeenFull` | 0_tutorial/1_multiThread/6_lockFree/lockfree_queue.cpp:43-46 | try_push fails exactly when the ring is full as far as the producer has seen |
| `SpscRing.PopFailsIffSeenEmpty` | 0_tutorial/1_multiThread/6_lockFree/lockfree_queue.cpp:57-60 | try_pop fails exactly when everything the consumer has seen is popped |
| `SpscRing.NoOverlap` | 0_tutorial/1_multiThread/6_lockFree/lockfree_queue.cpp:48-62 | a slot being written is never the slot being read |
| `SpscRing.HandOver` | 0_tutorial/1_multiThread/6_lockFree/lockfree_queue.cpp:44-63 | each slot changes hands only after the other side's release of it was seen |
| `SpscRing.AdmittedSafeIffPositive` | 0_tutorial/1_multiThread/6_lockFree/lockfree_queue.cpp:27-66 | of the capacities the static_assert admits, exactly the positive ones keep every access of every run inside the buffer |
| `SpscRing.ZeroCapacityOverruns` | 0_tutorial/1_multiThread/6_lockFree/lockfree_queue.cpp:27-48 | a run in which the first push of a ring of capacity 0 finds room and writes outside the buffer |
| `ThreadPool.PoolNeverStrands` | lib/threadPool/include/threadPool.h:19-56 | in every reachable state either no worker sleeps or notifications owed plus workers looking for work cover the queue |
| `ThreadPool.RunKeeps` | lib/threadPool/include/threadPool.h:17-95 | mutual exclusion, no stranded task, the stop protocol, one runner per task and the order of service hold in every reachable state |
| `ThreadPool.NoneStrandedKept` | lib/threadPool/include/threadPool.h:26-56 | every step keeps that, spurious wakeups and notifies outside the lock included |
| `ThreadPool.AlwaysProgress` | lib/threadPool/include/threadPool.h:19-95 | with a queued task, or on the way to shutdown, some step of the pool itself is always possible |
| `ThreadPool.OperationIsBounded` | lib/threadPool/include/threadPool.h:19-57 | before shutdown every run without new calls and without spurious wakeups is no longer than a measure of the state |
| `ThreadPool.QuietMeansDone` | lib/threadPool/include/threadPool.h:19-57 | before shutdown a state of a non-empty pool in which nothing can move has an empty queue, every accepted task finished and every worker asleep |
| `ThreadPool.OperationCompletes` | lib/threadPool/include/threadPool.h:19-57 | from any reachable state before shutdown, the pool left to itself stops within the bound, and only when it has started in order of acceptance and finished exactly the tasks passed to submitTask: as a bag all of them, and each client's in the order of its calls |
| `ThreadPool.OrderOfService` | lib/threadPool/include/threadPool.h:30-54 | tasks are dequeued one at a time in the order of acceptance, and nothing is accepted after stop |
| `ThreadPool.AcceptedIsGiven` | lib/threadPool/include/threadPool.h:39-58 | in every run: what a client has had accepted, then the task of its call under way, are in order the arguments of its calls that did not throw |
| `ThreadPool.SubmittedIsAccepted` | lib/threadPool/include/threadPool.h:39-58 | as long as no call throws, the accepted tasks and those of calls under way are, as a bag, all the arguments passed to submitTask |
| `ThreadPool.ThrowsAfterStop` | lib/threadPool/include/threadPool.h:51-54 | a call throws only after the destructor has set stop in the run, and a task is accepted only before |
| `ThreadPool.WhenWorkersWait` | lib/threadPool/include/threadPool.h:26-37 | a worker stands still only asleep, gone, or at a held lock; it sleeps exactly if every accepted task has been taken and stop is not set, and leaves exactly if every one has been taken and it is |
| `ThreadPool.WhenCallersWait` | lib/threadPool/include/threadPool.h:48-57 | a call of submitTask is held up by nothing but a held lock, and a client outside can always call |
| `ThreadPool.WhenDestructorWaits` | lib/threadPool/include/threadPool.h:88-95 | the destructor is held up by nothing but a held lock and a worker that has not left |
| `ThreadPool.RunsOnce` | lib/threadPool/include/threadPool.h:34 | a task that finishes had not finished before and nobody else was running it |
| `ThreadPool.ShutdownIsBounded` | lib/threadPool/include/threadPool.h:88-95 | once stop is set every run without new calls is bounded, spurious wakeups included |
| `ThreadPool.ShutdownDrains` | lib/threadPool/include/threadPool.h:29-37 | when all joins have returned the queue is empty and every accepted task has finished |
| `ThreadPool.ShutdownCompletes` | lib/threadPool/include/threadPool.h:88-95 | from any reachable state with stop set, a run that can go no further has run every accepted task, in order: for each client the tasks of its calls that did not throw |
| `ThreadPool.MutexKept` | lib/threadPool/include/threadPool.h:24-32 | the lock belongs to exactly one thread, the one inside it |
| `NestedWait.StuckIffDoneOrDeadlocked` | 1_benchmark/1_threadPool_test/src/case2_parallelismErosion.cpp:35-58 | the pool stops moving if and only if everything is done or every worker is blocked on a child |
| `NestedWait.WhenWorkersWait` | lib/threadPool/include/threadPool.h:19-37 | the pool is work-conserving: a worker stands still if and only if it is free with nothing queued or waits for an unfinished child |
| `NestedWait.RunKeeps` | 1_benchmark/1_threadPool_test/src/case2_parallelismErosion.cpp:41-56 | the invariant the other rows start from holds in every reachable state |
| `NestedWait.WaitersAtMostParents` | 1_benchmark/1_threadPool_test/src/case2_parallelismErosion.cpp:33-34 | waiting costs at most one worker per parent, so at least W - P workers never wait |
| `NestedWait.FewParentsAlwaysFinish` | 1_benchmark/1_threadPool_test/src/case2_parallelismErosion.cpp:35-58 | with fewer parents than workers every run is finite and ends with all parents and children done |
| `NestedWait.CompleteMeansAllRan` | 1_benchmark/1_threadPool_test/src/case2_parallelismErosion.cpp:49-55 | a completed run has run every parent and every child |
| `NestedWait.LeadingParentsDeadlock` | 1_benchmark/1_threadPool_test/src/case2_parallelismErosion.cpp:126-142 | if W parents precede every child in the queue, no child ever runs and the run ends with all W workers blocked |
| `NestedWait.DeadlockPossibleIff` | 1_benchmark/1_threadPool_test/src/case2_parallelismErosion.cpp:88-90 | some run deadlocks if and only if there are at least as many parents as workers |
| `NestedWait.DeadlockCertainIff` | CONTEXT.md:18 | every run deadlocks if and only if there is a single worker, contrary to the claim of certainty for parents >= workers |
| `NestedWait.RunsAreFinite` | 1_benchmark/1_threadPool_test/src/case2_parallelismErosion.cpp:41-56 | no run is longer than a bound computed from the state |
| `CallbackPipeline.PipelineFinishes` | 1_benchmark/1_threadPool_test/src/case3_submitTasks.cpp:154-215 | for every list of tasks, empty included: runs without spurious wakeups are bounded, and a run can only stop with the serial thread gone and total_sum right |
| `CallbackPipeline.RunKeeps` | 1_benchmark/1_threadPool_test/src/case3_submitTasks.cpp:162-206 | the invariant the other rows start from holds in every reachable state |
| `CallbackPipeline.TaskWakeup` | 1_benchmark/1_threadPool_test/src/case3_submitTasks.cpp:200-205 | while the serial thread sleeps with work ready, some task still owes a notify |
| `CallbackPipeline.NeverStuck` | 1_benchmark/1_threadPool_test/src/case3_submitTasks.cpp:162-206 | while anything is unfinished some step other than a spurious wakeup is possible |
| `CallbackPipeline.WhenSerialWaits` | 1_benchmark/1_threadPool_test/src/case3_submitTasks.cpp:162-190 | the serial thread sleeps exactly if it has taken every result pushed and some task is uncounted, leaves exactly if all are counted, and is otherwise held up by the lock alone |
| `CallbackPipeline.WhenTasksWait` | 1_benchmark/1_threadPool_test/src/case3_submitTasks.cpp:192-206 | a task is held up by nothing but the lock |
| `CallbackPipeline.FinalTotal` | 1_benchmark/1_threadPool_test/src/case3_submitTasks.cpp:170-185 | every result is reduced once and the total is the sum over all tasks |
| `CallbackPipeline.AnyOrderSameTotal` | 1_benchmark/1_threadPool_test/src/case3_submitTasks.cpp:144-146 | the order of completion does not matter to the sum |
| `CallbackPipeline.EarlyNotifyHangs` | 1_benchmark/1_threadPool_test/src/case3_submitTasks.cpp:147-148 | with the notify before the last count, a concrete hanging run for every non-empty list of tasks |
| `CallbackPipeline.EarlyHangsIffTasks` | 1_benchmark/1_threadPool_test/src/case3_submitTasks.cpp:147-148 | that ordering can hang if and only if there is at least one task |
| `BarrierTeam.ReachableInv` | 1_benchmark/2_tbb_test/include/bench_common.h:146-174 | the phase and round invariant holds in every reachable state |
| `BarrierTeam.CallsInStep` | 1_benchmark/2_tbb_test/include/bench_common.h:150-157 | a worker calls exactly the function last passed to run in the schedule, after every one passed before it once |
| `BarrierTeam.WritesAreSafe` | 1_benchmark/2_tbb_test/include/bench_common.h:162-173 | fn_ and stop_ are written only while no worker is between the barriers |
| `BarrierTeam.RunReturnsAfterAll` | 1_benchmark/2_tbb_test/include/bench_common.h:170-174 | run returns only after every worker has called every function passed to run in the schedule, once and in order, and none is still inside |
| `BarrierTeam.NeverStuck` | 1_benchmark/2_tbb_test/include/bench_common.h:149-174 | a round in progress, or destruction begun, always has a next step |
| `BarrierTeam.RunsAreBounded` | 1_benchmark/2_tbb_test/include/bench_common.h:149-174 | without further calls every run is bounded |
| `BarrierTeam.RoundsComplete` | 1_benchmark/2_tbb_test/include/bench_common.h:146-174 | over any schedule, one that can go no further has every worker through exactly the functions passed to run, in order, and all exited if the destructor ran |
| `BarrierTeam.CallsAreArguments` | 1_benchmark/2_tbb_test/include/bench_common.h:170-174 | from any state, the functions recorded over a schedule are those passed to run in it, in order |
| `BarrierTeam.WhenWorkersWait` | 1_benchmark/2_tbb_test/include/bench_common.h:149-160 | a worker stands still if and only if it has left, or the barrier it arrived at has not completed the phase of its round |
| `BarrierTeam.WhenMainWaits` | 1_benchmark/2_tbb_test/include/bench_common.h:162-174 | main stands still if and only if no call is under way, the barrier it arrived at has not completed the phase of its round, or a worker it joins has not left |
| `SlotReduction.AddFragment` | 1_benchmark/2_tbb_test/include/bench_common.h:79-83 | one round of the loop adds the partial sum up to the next canonical boundary to that block's slot alone |
| `SlotReduction.SlotAccumulate` | 1_benchmark/2_tbb_test/include/bench_common.h:74-85 | each slot gains exactly the elements of the leaf that belong to its canonical block |
| `SlotReduction.RunLeaves` | 1_benchmark/2_tbb_test/src/case3_nestedTask.cpp:127-137 | leaves interleaved fragment by fragment in any order give each slot the sum of what they share into it |
| `SlotReduction.AnyPartitionSameSlots` | 1_benchmark/2_tbb_test/include/bench_common.h:58-64 | for every partition into leaves, aligned or not, a slot receives the sum of its canonical block and nothing else |
| `SlotReduction.CanonicalIsBlock` | 1_benchmark/2_tbb_test/include/bench_common.h:58-64 | slot b of a task is the serial sum of its elements from b * grain up to (b + 1) * grain or the end |
| `SlotReduction.MakeOffsets` | 1_benchmark/2_tbb_test/include/bench_common.h:222-227 | chunk_offsets starts at 0 and gives each task just enough chunks: as many as its elements fill, and one fewer would not do |
| `SlotReduction.OwnSlots` | 1_benchmark/2_tbb_test/include/bench_common.h:222-227 | every element of a task falls into that task's own slots |
| `SlotReduction.SlotsUsed` | 1_benchmark/2_tbb_test/include/bench_common.h:222-228 | the slots of a task are exactly those that some element of it falls into; none stays empty |
| `SlotReduction.SlotsDisjoint` | 1_benchmark/2_tbb_test/include/bench_common.h:222-227 | slot ranges of different tasks are disjoint |
| `SlotReduction.SlotMerge` | 1_benchmark/2_tbb_test/include/bench_common.h:65-71 | the sum of all slots |
| `SlotReduction.MergeIsReference` | 1_benchmark/2_tbb_test/include/bench_common.h:229-236 | slots that hold their canonical blocks add up to the serial reference |
| `SlotReduction.Nested` | 1_benchmark/2_tbb_test/src/case3_nestedTask.cpp:118-146 | whatever leaves the partitioner makes and in whatever order they run, the merged total is the serial reference |
| `FlatTiling.TileSum` | 1_benchmark/2_tbb_test/src/case3_nestedTask.cpp:87-94 | a tile sums its real cells once each and its phantom cells not at all |
| `FlatTiling.FlatLeaf` | 1_benchmark/2_tbb_test/src/case3_nestedTask.cpp:79-101 | the two segment loops give each slot exactly the cells of the leaf in its block |
| `FlatTiling.AnyTilingSameSlots` | 1_benchmark/2_tbb_test/src/case3_nestedTask.cpp:76-102 | whatever the tiling, a slot receives exactly its block of the rectangle |
| `FlatTiling.CellSlotIsBlock` | 1_benchmark/2_tbb_test/src/case3_nestedTask.cpp:76-102 | the cells that fall into a slot are exactly those of one row block and one column block |
| `FlatTiling.RunTiles` | 1_benchmark/2_tbb_test/src/case3_nestedTask.cpp:76-102 | leaves interleaved tile by tile in any order give each slot the shares of all the leaves |
| `FlatTiling.Flat2d` | 1_benchmark/2_tbb_test/src/case3_nestedTask.cpp:73-106 | for every tiling, whatever order the tiles run in, the merged slots are the serial reference over the real cells |
| `SemaphoreRW.RunKeeps` | 0_tutorial/2_multiProcess/2_IPC/4_semaphore.cpp:340-408 | the semaphore counts hold in every reachable state, and runs are bounded |
| `SemaphoreRW.WriterExcludesAll` | 0_tutorial/2_multiProcess/2_IPC/4_semaphore.cpp:346-405 | a writer inside excludes every reader and every other writer |
| `SemaphoreRW.CountIsExact` | 0_tutorial/2_multiProcess/2_IPC/4_semaphore.cpp:379-405 | with semaphore 0 free, reader_count is the number of readers reading |
| `SemaphoreRW.NeverStuck` | 0_tutorial/2_multiProcess/2_IPC/4_semaphore.cpp:346-405 | while anybody has a round to go some step is possible |
| `SemaphoreRW.EveryRunCompletes` | 0_tutorial/2_multiProcess/2_IPC/4_semaphore.cpp:340-408 | for any readers, writers and rounds: runs are finite and stop exactly when no round is left, and then everybody has read or written as often as it wanted |
| `SemaphoreRW.WhenReadersWait` | 0_tutorial/2_multiProcess/2_IPC/4_semaphore.cpp:370-400 | a reader stands still exactly while another counts itself in or out, or, being the first, while a writer is inside; so readers share |
| `SemaphoreRW.WhenWritersWait` | 0_tutorial/2_multiProcess/2_IPC/4_semaphore.cpp:340-362 | a writer stands still exactly while another writer is inside or the readers hold the section |
| `SemaphoreRW.AllReadAtOnce` | 0_tutorial/2_multiProcess/2_IPC/4_semaphore.cpp:370-392 | for any number of readers there is a run after which all of them are reading |
| `SemaphoreBuffer.PermitsAddUp` | 0_tutorial/2_multiProcess/2_IPC/4_semaphore.cpp:242-295 | empty + full + permits in flight is always BUFFER_SIZE and the count stays within it |
| `SemaphoreBuffer.RingKept` | 0_tutorial/2_multiProcess/2_IPC/4_semaphore.cpp:249-287 | the ring holds exactly what is written and not yet taken, in order; a writer never overwrites it |
| `SemaphoreBuffer.EveryRunDelivers` | 0_tutorial/2_multiProcess/2_IPC/4_semaphore.cpp:237-299 | runs are finite; what is taken is the front of what is written, and what is written is, for each producer, the front of its own items; a run ends with as much handed over as the totals allow |
| `SemaphoreBuffer.EqualTotalsDeliverAll` | 0_tutorial/2_multiProcess/2_IPC/4_semaphore.cpp:237-299 | with equal totals a run that can go no further has handed over every item, each producer's in its own order |
| `SemaphoreBuffer.WhenProducersWait` | 0_tutorial/2_multiProcess/2_IPC/4_semaphore.cpp:242-268 | a producer with items left stands still exactly while every slot is claimed, full or just emptied, or while another thread is at the ring |
| `SemaphoreBuffer.WhenConsumersWait` | 0_tutorial/2_multiProcess/2_IPC/4_semaphore.cpp:272-297 | a consumer stands still exactly while every full slot is claimed or not yet announced, or while another thread is at the ring |
| `ReadWriteLock.LockIsSafe` | 0_tutorial/1_multiThread/5_threadsQuiz/07_readersWriters.cpp:16-39 | in every reachable state: with the mutex free a reader sleeps only while a writer is inside and a writer only while somebody is, a writer inside is alone, and readers is exact |
| `ReadWriteLock.SleepsIff` | 0_tutorial/1_multiThread/5_threadsQuiz/07_readersWriters.cpp:16-33 | under the mutex a reader goes to sleep if and only if a writer is inside, a writer if and only if anybody else is, and each enters otherwise |
| `ReadWriteLock.WhenThreadsWait` | 0_tutorial/1_multiThread/5_threadsQuiz/07_readersWriters.cpp:16-39 | a thread with a round to go stands still if and only if it sleeps, or needs the mutex while another thread has it |
| `ReadWriteLock.ReaderJoins` | 0_tutorial/1_multiThread/5_threadsQuiz/07_readersWriters.cpp:16-20 | with the mutex free and no writer inside, a reader gets in by its own steps alone, however many readers are inside |
| `ReadWriteLock.AllReadAtOnce` | 0_tutorial/1_multiThread/5_threadsQuiz/07_readersWriters.cpp:16-20 | for any mix of threads there is a run after which all the readers are inside at once |
| `ReadWriteLock.WriterIsAlone` | 0_tutorial/1_multiThread/5_threadsQuiz/07_readersWriters.cpp:29-33 | a writer inside excludes every other thread, reader or writer |
| `ReadWriteLock.NeverStuck` | 0_tutorial/1_multiThread/5_threadsQuiz/07_readersWriters.cpp:16-39 | while a thread has a round to go some step other than a spurious wakeup is possible |
| `ReadWriteLock.EveryRunCompletes` | 0_tutorial/1_multiThread/5_threadsQuiz/07_readersWriters.cpp:42-52 | runs without spurious wakeups are bounded, and a run stops only when every thread has had the lock exactly as often as it wanted |
| `OneSlot.EveryCargoArrives` | 0_tutorial/1_multiThread/5_threadsQuiz/01_producerConsumer.cpp:98-131 | despite notify_one: cargoes go in in the order of the puts and come out in that order, no producer's cargo twice; with equal numbers everybody finishes and the cargoes consumed are exactly the producers', each once |
| `OneSlot.RunKeeps` | 0_tutorial/1_multiThread/5_threadsQuiz/01_producerConsumer.cpp:98-115 | the invariant (order of cargoes, no stranded sleeper) holds in every reachable state |
| `OneSlot.HowItEnds` | 0_tutorial/1_multiThread/5_threadsQuiz/01_producerConsumer.cpp:98-115 | min(producers, consumers) cargoes are consumed, and everybody finishes if and only if consumers <= producers <= consumers + 1 |
| `OneSlot.WhenProducersWait` | 0_tutorial/1_multiThread/5_threadsQuiz/01_producerConsumer.cpp:98-106 | a producer waits exactly while a cargo is still to be taken and puts exactly if none is; else nothing but sleep and the mutex holds it up |
| `OneSlot.WhenConsumersWait` | 0_tutorial/1_multiThread/5_threadsQuiz/01_producerConsumer.cpp:107-115 | a consumer waits exactly while everything put is taken and takes exactly if a cargo is there; else nothing but sleep and the mutex holds it up |
| `OneSlot.NobodyInside` | 0_tutorial/1_multiThread/5_threadsQuiz/01_producerConsumer.cpp:98-115 | a run that can go no further has nobody holding the mutex |

## Left out

- solve_backtracking_serial and solve_backtracking_sub share one loop in the model (`StackSearch`), as do solve_bitopt_serial and solve_bitopt_sub (`BitStackSearch`); the two textually equal backtrack branches of the former are one.
- The `cols_` table and the `name` field of the dancing-links nodes: a header's index is computed from its name.
- `std::next_permutation` is not part of the repository; it is modelled by the usual algorithm and its standard contract is proved.
- `SolveMt.SolveMt`: hardware_concurrency() is a parameter, and at least one of it and num_threads must be positive, because the code divides by it.
- nqueens_dl.cc runs `solve` itself as the recursive search; the model shares `SolveImpl` with nqueens.h, whose code is the same up to the end test on left or right.
- int and size_t widths outside the masks, the node sizes and the totals treated above.
- The tag of the stack is unbounded; a machine word would wrap after 2^64 exchanges.
- The C++ memory model beyond coherence of each atomic and release/acquire publication; in the stack also the missing publication after a relaxed failed exchange (there a racing read returns any value, where the standard calls the program undefined). For the MPSC queue and the protocols under a mutex, loads return the current value.
- `TaggedStack.TaggedStackIsLinearisable`: asks for ordered failed exchanges or a single thread; by `TaggedStack.SafeIff` it is false otherwise.
- `SpscRing.RingIsFifo`: capacity 0 is excluded; `SpscRing.AdmittedSafeIffPositive` says why.
- `TaggedStack.EmptyPopsSawEmpty`: the empty version may be older than the start of the call if another thread has emptied and refilled the stack unseen, because a relaxed or acquire load may be stale; only what the thread itself has seen bounds it.
- `SolveMt.SplitNarrow`: the exact condition is on the count; for which N beyond 12 the count fits 31 bits is not computed.
- `~UnsafeLockFreeStack` and `~SafeLockFreeStack`: they only call pop until it fails.
- Destruction of the SPSC ring: it frees one array.
- `submitTasks` repeats the critical section of submitTask, and futures and exceptions of tasks are not modelled beyond "finished".
- Fairness and starvation: progress means that some step is possible and runs are bounded.
- `case2_multi_thread_pool`: each parent has a pool of its own, which is an instance of `ThreadPool`.
- The watchdog and the environment gate of case2_deadlock_demo: timing only.
- The other styles of case3_submitTasks.cpp: they block on futures in submission order.
- Floating point: slots hold exact reals, so "bit-identical" is not claimed.
- The pseudo-random sizes of `Case3Spec::make`: any sizes are allowed.
- case3_nested_depth3: the same slots with one more level of cuts, hence another partition.
- TBB, PPL and OpenMP schedulers: a partitioner is any partition into leaves.
- Reads of reader_count, counter and message for printing in 4_semaphore.cpp, and the other examples of that file.
- The bounded-queue variant in 01_producerConsumer.cpp and the C++17 shared_mutex variant in 07_readersWriters.cpp: standard-library locks do the work there.
- `OneSlot.EveryCargoArrives`: ids are nonzero, as the source passes i + 1; a zero id would look like an empty slot.
- Benchmark registration, timing, printing, command lines and operating-system calls.
