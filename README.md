# Shared-memory all-reduce of the CPU communication backend

This project models the computational core of `csrc/cpu/comm/ccl.cpp`, the
CPU communication extension. The extension wraps the oneCCL library and adds
a low-latency all-reduce for bfloat16 tensors that runs entirely in shared
memory. Every rank of the job owns one slot of a shared workspace. A slot
holds an int flag and a 32768-byte data area. The model covers:

- **Conversions between bfloat16 and binary32** (`Bf16`).
  `cvt_bf16_to_fp32` widens by zero-extension followed by a byte shift
  within each 128-bit lane. `cvt_fp32_to_bf16` narrows by adding a rounding
  bias, shifting, blending NaN lanes to `0xffff` and saturating to 16 bits.
  Everything is modelled on the bit patterns, lane by lane. The model proves:
  - narrowing is round to nearest, ties to even, on the pattern;
  - the saturation never fires;
  - the bias addition never wraps for a non-NaN value;
  - the round trips hold in both directions.
- **The reduce kernels and their dispatcher** (`Kernels`).
  - `reduce_bf16_buffers` and `reduce_3` .. `reduce_8_bf16_buffers` follow
    one pattern. They are modelled by one imperative method, `ReduceKernel`,
    over a two-dimensional array with one row per slot. It takes the list of
    source rows and loops over it, so the k-way kernels are its calls with
    k - 1 source rows. The 2-way kernel is a wrapper that calls it with one
    source row.
  - `reduce_all_bf16_buffers` dispatches to the k-way kernel for 3 .. 8
    buffers. For any other count it falls back to a loop of 2-way calls.
  - Each method is proved against a specification function on the rows.
  - Binary32 addition is a parameter of the model (see "Left out"). So is
    every property that depends on it, such as NaN propagation.
- **The flag handshake of `all_reduce_low_latency`** (`Handshake`).
  - Each rank's program is a sequence of atomic steps:
    - copy in;
    - publish flag 1;
    - rank 0 waits for every peer's 1, reduces, sets its flag to 2 and
      copies out;
    - the peers wait for rank 0's 2, copy out and acknowledge with 2;
    - rank 0 waits for every acknowledgement and resets its flag;
    - the peers wait for rank 0's 0 and then reset their own flags.
  - The ranks interleave arbitrarily.
  - The model proves:
    - an inductive invariant;
    - that the reduction sees every rank's tensor;
    - that every rank ends with the reduced result and every flag back at 0;
    - that there is no deadlock within one call;
    - a bound on the length of every interleaving.
  - A `Workspace` class holds the flags and the data areas as arrays. It is
    proved to perform exactly the steps of the transition system.
  - `wait_buffer_state_until` is a loop over the successive reads of a flag.
- **Consecutive calls** (`Rounds`). Every rank runs several calls back to
  back, and the model keeps only the flags and the positions. It compares
  the program as written with one in which rank 0, after resetting its
  flag, waits until no peer's flag still shows 2. The source's program can
  deadlock in the second of two calls. The corrected one can never
  deadlock, and every schedule of it is bounded.
- **`next_unique_val`** (`Groups`): the next free communicator id or colour.
- **`get_ccl_datatype` and `get_ccl_reduce_op`** (`CclTypes`): the
  translation of tensor element types and Python `ReduceOp` members.

## Model

| member | source | states |
|---|---|---|
| Bf16.Widen | csrc/cpu/comm/ccl.cpp:265-270 | one widened element carries the bfloat16 pattern in its upper half and zeros below |
| Bf16.ZeroExtendHalves | csrc/cpu/comm/ccl.cpp:268 | `_mm512_cvtepu16_epi32`: a zero-extended element has nothing in its upper half, and shifting it up by 16 bits gives the widened element |
| Bf16.ByteShiftLanesIsLaneShift | csrc/cpu/comm/ccl.cpp:269 | the element-wise shift is `_mm512_bslli_epi128(v, 2)`: element m of each 128-bit lane equals element m of that lane, packed from its four elements and shifted left by 16 bits (LaneShift0 .. 3 for each m) |
| Bf16.ByteShiftHalves | csrc/cpu/comm/ccl.cpp:269 | after the shift, each element's upper half is its old lower half and its lower half is the upper half of the element below it in the same 128-bit lane, or zero for a lane's lowest element |
| Bf16.ShiftElement1 | csrc/cpu/comm/ccl.cpp:269 | shifting a 128-bit lane left by two bytes moves the upper half of element 0 into element 1 (ShiftElement0, 2 and 3 likewise for the other elements) |
| Bf16.CvtBf16ToFp32 | csrc/cpu/comm/ccl.cpp:265-270 | zero-extension followed by the in-lane byte shift gives each lane the bfloat16 pattern in its upper half, so no bits cross between elements |
| Bf16.SaturateU16 | csrc/cpu/comm/ccl.cpp:294 | `_mm512_cvtusepi32_epi16`: the saturated 16-bit value is never above the 32-bit input |
| Bf16.SaturateIsGreatest | csrc/cpu/comm/ccl.cpp:294 | no 16-bit value that is not above the input is above the saturated value, so saturation gives the greatest 16-bit value not above the input |
| Bf16.RoundedShiftUp | csrc/cpu/comm/ccl.cpp:284-291 | the bias arithmetic carries into the upper half, adding one, when the lower half is above one half, or is one half and the upper half is odd |
| Bf16.RoundedShiftDown | csrc/cpu/comm/ccl.cpp:284-291 | in every other case the bias arithmetic keeps the upper half unchanged |
| Bf16.RoundedShiftIsRoundHalfEven | csrc/cpu/comm/ccl.cpp:282-291 | for a non-NaN pattern, adding 0x7fff plus the kept lsb and shifting right by 16 rounds the upper half half-to-even |
| Bf16.Narrow | csrc/cpu/comm/ccl.cpp:272-296 | a NaN lane (the unordered self-compare) gives 0xffff; every other lane gives the round-half-to-even upper half |
| Bf16.CvtFp32ToBf16 | csrc/cpu/comm/ccl.cpp:272-296 | on a vector of 16 lanes, NaN lanes give 0xffff and every other lane is rounded half-to-even, lane for lane |
| Bf16.SaturationInactive | csrc/cpu/comm/ccl.cpp:291-294 | the value before saturation is always below 2^16, so the saturating narrow never clamps |
| Bf16.BiasNeverWraps | csrc/cpu/comm/ccl.cpp:285-289 | for a non-NaN pattern the 32-bit bias addition never wraps around |
| Bf16.NarrowIsNearestEven | csrc/cpu/comm/ccl.cpp:272-296 | the narrowed pattern, widened again, is at most half a unit of the last place away from the input, and it is even on a tie |
| Bf16.WidenKeepsNaN | csrc/cpu/comm/ccl.cpp:265-270 | exactly the bfloat16 NaNs widen to binary32 NaNs |
| Bf16.NarrowWiden | csrc/cpu/comm/ccl.cpp:265-296 | narrowing a widened value gives it back, except that every NaN becomes 0xffff |
| Bf16.WidenNarrow | csrc/cpu/comm/ccl.cpp:265-296 | a non-NaN binary32 pattern whose lower half is zero survives narrowing and widening unchanged |
| Kernels.Blocked | csrc/cpu/comm/ccl.cpp:386 | the elements a kernel touches for num_elements n: a multiple of 16, at least n and less than n + 16 |
| Kernels.BlockedIsLeast | csrc/cpu/comm/ccl.cpp:386 | that count is the least multiple of 16 at or above n, so it fits any 16-aligned area that fits n |
| Kernels.LoadBlockIsSlice | csrc/cpu/comm/ccl.cpp:387-388 | `_mm256_loadu_si256` gives the slice of 16 elements of the row that starts at element i (lines 397-400 likewise) |
| Kernels.AddVectorsAccumulates | csrc/cpu/comm/ccl.cpp:389 | `_mm512_add_ps` of a widened source vector onto the accumulator extends every lane's left-to-right accumulation by that lane's source element (lines 399 and 401 likewise) |
| Kernels.AccumulateBlock | csrc/cpu/comm/ccl.cpp:397-401 | the additions of one vector: in_out's widened element plus each source's widened element, in source order |
| Kernels.ReduceKernel | csrc/cpu/comm/ccl.cpp:394-520 | one k-way kernel call replaces row 0 by the element-wise sum of row 0 and the sources, with one rounding per element; no other row changes |
| Kernels.ReduceBf16Buffers | csrc/cpu/comm/ccl.cpp:384-392 | the 2-way kernel: row 0 becomes the rounded sum of row 0 and the source row; no other row changes |
| Kernels.ReducePairwise | csrc/cpu/comm/ccl.cpp:377-381 | the fallback loop: row 0 becomes the result of one 2-way call per row 1 .. k-1, in order; no other row changes |
| Kernels.ReduceAllBf16Buffers | csrc/cpu/comm/ccl.cpp:336-382 | the dispatcher: 3 .. 8 buffers give one k-way call over rows 1 .. k-1, any other count the pairwise fallback |
| Kernels.PairwiseAt | csrc/cpu/comm/ccl.cpp:377-381 | element by element, the fallback rounds to bfloat16 after adding each source |
| Kernels.ReduceAllAt | csrc/cpu/comm/ccl.cpp:336-382 | element e of the result combines element e of rows 0 .. k-1 only: one rounding for 3 .. 8 buffers, one per source otherwise |
| Kernels.ReduceAllLocal | csrc/cpu/comm/ccl.cpp:336-382 | a result element depends only on that element of rows 0 .. k-1 |
| Kernels.TwoBuffersRoundOnce | csrc/cpu/comm/ccl.cpp:377-381 | with two buffers the fallback is exactly one 2-way kernel call |
| Kernels.AccumulateNaN | csrc/cpu/comm/ccl.cpp:397-401 | for an addition that propagates NaN, any NaN operand makes the accumulated value a NaN |
| Kernels.CombineNaN | csrc/cpu/comm/ccl.cpp:394-520 | any NaN input of a k-way kernel element gives the 0xffff sentinel |
| Kernels.RoundEachNaN | csrc/cpu/comm/ccl.cpp:377-381 | the pairwise fallback also yields the 0xffff sentinel when any input is a NaN, because the sentinel is itself a NaN |
| Kernels.StoreBlock | csrc/cpu/comm/ccl.cpp:390 | `_mm256_storeu_si256` writes 16 elements of row 0 and nothing else |
| Handshake.Advance | csrc/cpu/comm/ccl.cpp:530-558 | a step moves only the stepping rank to its next position in its program, and keeps every component the size the call configures |
| Handshake.NextPcFollowsProgram | csrc/cpu/comm/ccl.cpp:530-558 | each rank's program is one chain of positions from copy-in to return: every step leads to a position the rank's program has, one step further on, and the chain ends after 2W + 4 steps for rank 0 and 7 for a peer, W being world_size |
| Handshake.StepFrame | csrc/cpu/comm/ccl.cpp:530-558 | a step changes nothing owned by another rank |
| Handshake.InitInv | csrc/cpu/comm/ccl.cpp:109 | with every flag at 0, as initialize leaves them, the invariant holds before the call |
| Handshake.StepPreservesInv | csrc/cpu/comm/ccl.cpp:530-558 | every enabled step of every rank keeps the invariant |
| Handshake.RunPreservesInv | csrc/cpu/comm/ccl.cpp:530-558 | the invariant holds after every interleaving of enabled steps |
| Handshake.ReduceSeesAllCopies | csrc/cpu/comm/ccl.cpp:535-539 | when rank 0 reduces, every data area already holds its rank's tensor |
| Handshake.PeerCopiesResult | csrc/cpu/comm/ccl.cpp:546-548 | a peer copies out only when slot 0 holds the final result |
| Handshake.ResetAfterAllCopied | csrc/cpu/comm/ccl.cpp:551-553 | rank 0 resets its flag only once every rank's tensor holds the result |
| Handshake.DoneMeansReduced | csrc/cpu/comm/ccl.cpp:522-558 | when every rank has returned, every tensor holds the reduced result and every flag is 0 |
| Handshake.ExpectedFromInputs | csrc/cpu/comm/ccl.cpp:530-539 | result element e combines element e of every rank's tensor, rank 0 first; the stale tails of the data areas never reach it |
| Handshake.NoDeadlock | csrc/cpu/comm/ccl.cpp:522-558 | until every rank has returned, some rank can take a step |
| Handshake.StepTakesOne | csrc/cpu/comm/ccl.cpp:522-558 | every enabled step moves exactly one rank one position forward |
| Handshake.RunIsBounded | csrc/cpu/comm/ccl.cpp:522-558 | every interleaving from the start of the call has at most 9W - 3 steps for W ranks |
| Handshake.RunAppend | csrc/cpu/comm/ccl.cpp:522-558 | running two schedules in turn is running their concatenation |
| Handshake.RootMayReturnFirst | csrc/cpu/comm/ccl.cpp:551-558 | with two ranks, rank 0 can return while its peer still waits to see flag 0 |
| Handshake.WaitBufferStateUntil | csrc/cpu/comm/ccl.cpp:257-263 | the spin stops at the first read of the flag that equals the awaited state |
| Handshake.RowPrefix | csrc/cpu/comm/ccl.cpp:544 | the copy-out memcpy reads the first numel elements of slot 0's data area (line 548 likewise) |
| Handshake.Workspace.constructor | csrc/cpu/comm/ccl.cpp:105-110 | the workspace starts with every flag 0 and arbitrary data areas: the initial state of the transition system |
| Handshake.Workspace.CopyIntoSlot | csrc/cpu/comm/ccl.cpp:530 | the memcpy writes the tensor into the first numel elements of the rank's own data area and leaves everything else |
| Handshake.Workspace.ReduceIntoSlot0 | csrc/cpu/comm/ccl.cpp:539 | the reduction replaces slot 0's data area by the dispatcher's result |
| Handshake.Workspace.Step | csrc/cpu/comm/ccl.cpp:522-558 | one poll or action on the arrays is the transition system's step when enabled, and a failed poll changes nothing |
| Rounds.Move | csrc/cpu/comm/ccl.cpp:530-558 | a move changes only the moving rank's flag and position, and the position moves on by NextPos |
| Rounds.OneCallIsHandshake | csrc/cpu/comm/ccl.cpp:522-558 | with one call the source's program here is the single-call handshake: the same ranks can move, with the same effect on flags and positions |
| Rounds.LostWakeup | csrc/cpu/comm/ccl.cpp:551-558 | as written, two ranks making two calls can reach, by a schedule of possible moves, a state where neither can ever move again although neither has finished |
| Rounds.LostStuck | csrc/cpu/comm/ccl.cpp:535-537 | in that state rank 0 waits for flag 1 from a peer showing 2, and the peer waits for flag 0 from rank 0 showing 1 |
| Rounds.StartInv | csrc/cpu/comm/ccl.cpp:109 | the invariant of the corrected programs holds before the first call |
| Rounds.OwnMove | csrc/cpu/comm/ccl.cpp:530-558 | after a move, the moving rank's flag is the one its new position implies, and it is still within the job's calls |
| Rounds.PeerMoveOrder | csrc/cpu/comm/ccl.cpp:546-558 | a peer's move keeps its place relative to rank 0 |
| Rounds.RootMoveOrder | csrc/cpu/comm/ccl.cpp:530-554 | rank 0's move, including the added waits for the resets, keeps every peer's place relative to it |
| Rounds.MovePreservesInv | csrc/cpu/comm/ccl.cpp:522-558 | every possible move of the corrected programs keeps the invariant |
| Rounds.PlayPreservesInv | csrc/cpu/comm/ccl.cpp:522-558 | the invariant holds after every schedule of possible moves |
| Rounds.RootLastMeansFinished | csrc/cpu/comm/ccl.cpp:551-558 | once corrected rank 0 has returned from the last call, every peer has too |
| Rounds.CanMove | csrc/cpu/comm/ccl.cpp:522-558 | under the invariant, either every rank has returned from its last call or some rank can move |
| Rounds.NeverDeadlocked | csrc/cpu/comm/ccl.cpp:522-558 | the corrected programs never deadlock, for any world size, number of calls and interleaving |
| Rounds.MoveWorkOne | csrc/cpu/comm/ccl.cpp:522-558 | every move, including the start of a new call, adds exactly one to the moving rank's count |
| Rounds.WorkAtMost | csrc/cpu/comm/ccl.cpp:522-558 | over C calls, a rank makes at most C times the moves of one call, minus one |
| Rounds.CapAll | csrc/cpu/comm/ccl.cpp:522-558 | for W ranks and C calls, those counts add up to C(11W - 4) - W |
| Rounds.PlayIsBounded | csrc/cpu/comm/ccl.cpp:522-558 | every schedule of the corrected programs adds its own length to the count and has at most C(11W - 4) - W moves |
| Groups.NextUniqueVal | csrc/cpu/comm/ccl.cpp:140-157 | 0 for an empty set or one not starting at 0, 1 for {0}; for a set of naturals, the least natural missing from it |
| Groups.Prefix | csrc/cpu/comm/ccl.cpp:152-153 | the first break in the run 0, 1, 2, .. is the least missing natural |
| Groups.CommentExample | csrc/cpu/comm/ccl.cpp:140 | <0,1,2,7> gives 3 |
| CclTypes.GetCclDatatype | csrc/cpu/comm/ccl.cpp:168-180 | Int, Float, Double, BFloat16 and Half map to their library types, in both directions; every other type maps to int8 |
| CclTypes.DatatypeKeepsWidth | csrc/cpu/comm/ccl.cpp:168-180 | the element width is kept exactly for the five named types and for one-byte types |
| CclTypes.BoolPass | csrc/cpu/comm/ccl.cpp:192-201 | the bool branch fails exactly for AVG on a bool tensor |
| CclTypes.GetCclReduceOp | csrc/cpu/comm/ccl.cpp:182-215 | a non-`ReduceOp` is rejected first; SUM, MIN, MAX and PRODUCT map to sum, min, max and prod; AVG is the bool error on bool tensors and unrecognized elsewhere; every other op is unrecognized |
| CclTypes.ReduceOpRoundTrip | csrc/cpu/comm/ccl.cpp:203-213 | every library reduction is reached from its `ReduceOp` member, for every tensor type |
| CclTypes.AcceptedOpIsItsReduction | csrc/cpu/comm/ccl.cpp:203-213 | an accepted op is the member of the reduction it maps to |
| CclTypes.BoolOnlyChangesAvgError | csrc/cpu/comm/ccl.cpp:192-213 | a bool tensor changes only which error AVG gets |
| CclTypes.BoolSumBecomesSum | csrc/cpu/comm/ccl.cpp:192-204 | as written, SUM on a bool tensor maps to sum: the max chosen at line 197 is overwritten |
| CclTypes.GetCclReduceOpIntended | csrc/cpu/comm/ccl.cpp:192-215 | the intended mapping: bool SUM goes to max, everything else as before |
| CclTypes.IntendedDiffersOnlyOnBoolSum | csrc/cpu/comm/ccl.cpp:192-215 | the intended mapping never gives sum on a bool tensor, and it differs from the written one exactly on bool SUM |

## Left out

- Binary32 addition (`_mm512_add_ps`) is a parameter. Floating-point arithmetic is not modelled, so the sums are exact only relative to that parameter.
- The kernels work on 16-lane vectors. The model states their effect element by element and does not model the AVX-512 registers.
- The shared-memory lifecycle (`shared_open`, `shared_create`, lines 28-59): it is file-system and `mmap` I/O. So is the open in `initialize`. `shared_create` also assigns `nbytes` inside its `if` condition (line 47), so a failed write (-1) still counts as true; that is not modelled either.
- The oneCCL wrappers: `get_kvs_addr`, `broadcast`, `all_reduce`, `all_reduce_caching`, `barrier` and `_get_comm_from_group`. They are calls into a library that is not part of this model. Only the argument translations they share are modelled.
- `initialize` is modelled only in the part that affects the handshake: it zeroes the flags (Workspace.constructor). The communicator, the kvs and the allocation are left out.
- `new_group` prints its two ids and returns nothing. Only `next_unique_val`, which it calls, is modelled.
- The latency statistics (`count`, `total`, `total_sq`, the `printf`) are clock I/O.
- The Python bindings are left out.
- Real concurrency is reduced to an interleaving of atomic steps.
  - Memory ordering is not modelled: the `volatile` flag reads, the lack of fences, and the data copies racing with the flag writes on weakly ordered hardware.
  - A memcpy or a reduction is one atomic step once its flag guard has passed. This is what the flag protocol is meant to guarantee.
- Handshake: the single-call model covers one call of `all_reduce_low_latency`, from every flag at 0 to every rank returned, with data. Consecutive calls are modelled in `Rounds` on the flags and positions only. The data areas and the tensors of later calls, and what the corrected program does to them, are not modelled there.
- Handshake and Workspace model the program as written, without the added waits for the resets. Within one call those waits only delay rank 0's return: they read flags and write nothing.
- Handshake: `op` and the tensor's scalar type are ignored, as they are in the source. The tensor is treated as bfloat16 with `numel` at most 16384.
  - The source never checks the size. A larger tensor would overflow the 32768-byte data area, and the model makes the bound a precondition.
- Handshake.WellFormedPc is part of the invariant. The transition system admits positions that no rank's program reaches, such as a peer at a rank-0 wait, and the invariant excludes them.
- Handshake.WaitBufferStateUntil: the source spins forever unless some read matches. The model takes the reads as a parameter and requires that one of them matches, so it does not model a spin that never ends. Liveness is stated on the transition system instead (NoDeadlock, RunIsBounded).
- Groups.NextUniqueVal: a set that is exactly {0, .., k-1} with k ≥ 2 is excluded by its precondition. For that set the source dereferences `s.end()` (line 156), which is undefined behaviour.
- Groups.NextUniqueVal: for a set whose minimum is negative it states only the source's result 0, which may itself be in the set. Ids and colours are never negative in the callers.
- Kernels: a kernel touches `Blocked(n)` elements, the element count rounded up to 16. The rows are required to be at least that long, as the 16384-element data areas are for every `numel` up to 16384. The elements between `numel` and the rounded count are reduced as well.
- The pairwise fallback does not give the same bits as a k-way kernel would: it rounds to bfloat16 after every source, while the k-way kernels round once. Kernels.PairwiseAt and Handshake.ExpectedFromInputs state the two results separately.
- CclTypes.DatatypeKeepsWidth shows that no mapping exists for the unnamed types. Those are sent as int8 with the tensor's element count. The one-byte ones (Byte, Char, Bool, QInt8, QUInt8) are covered in full. For the wider ones (Short, Long, the complex types and QInt32) only part of the tensor is covered. The model states this and does not correct it.

## Findings

| source | as written | input that shows it | evidently intended | confidence | as-written member | corrected member |
|---|---|---|---|---|---|---|
| csrc/cpu/comm/ccl.cpp:192-204 | the bool branch chooses max for SUM, then the second if-chain assigns sum | SUM on a bool tensor | SUM on a bool tensor is reduced with max, a bitwise or, as the comment at lines 194-196 says, so one-byte sums cannot overflow | high (not executed) | CclTypes.BoolSumBecomesSum | CclTypes.GetCclReduceOpIntended |
| csrc/cpu/comm/ccl.cpp:551-558 | rank 0 resets its flag to 0 and returns without waiting for the peers, which are still waiting to read that 0 | two ranks and two consecutive calls. Rank 0 finishes the first call and starts the second, publishing 1, before the peer reads the 0. The peer then waits for 0 while rank 0's flag shows 1, and rank 0 waits for the peer's 1 while it shows 2 | rank 0 returns only once no peer's flag still shows 2, so a peer cannot miss the reset | medium (not executed) | Rounds.LostWakeup | Rounds.NeverDeadlocked |
