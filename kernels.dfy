/** The bfloat16 reduce kernels of the shared-memory all-reduce: the 2-way
    kernel reduce_bf16_buffers, the k-way kernels for k = 3..8 and the
    dispatcher reduce_all_bf16_buffers.

    The shared workspace is a two-dimensional array: row r is the data area
    of rank r's slot, in bfloat16 elements. Every kernel reduces into row 0
    (the in_out buffer) and reads the other rows only. The binary32 vector
    addition (_mm512_add_ps) is a parameter `add`, applied lane by lane. */
module Kernels {
  import opened Bf16

  /** Size of the data area of one workspace slot, in bytes and in elements. */
  const SlotBytes: nat := 32768
  const SlotElems: nat := SlotBytes / 2

  /** Binary32 addition of two lanes, as bit patterns. */
  type Add32 = (bv32, bv32) -> bv32

  /** Number of elements a kernel touches for num_elements = n: the loop runs
      over whole vectors of 16 elements, so the last partial vector is read
      and written in full. */
  function Blocked(n: int): (b: nat)
    ensures n <= 0 ==> b == 0
    ensures n > 0 ==> b % Lanes == 0 && n <= b < n + Lanes
  {
    if n <= 0 then 0 else ((n + 15) / 16) * 16
  }

  /** Blocked(n) is the least multiple of the vector width at or above n. */
  lemma BlockedIsLeast(n: int, m: int)
    requires 0 <= m && m % Lanes == 0 && n <= m
    ensures Blocked(n) <= m
  {
  }

  /** A vector that starts below n lies wholly below Blocked(n). */
  lemma BlockFits(n: int, i: int)
    requires 0 <= i < n && i % Lanes == 0
    ensures i + Lanes <= Blocked(n)
  {
    var b := Blocked(n);
    assert b % Lanes == 0 && i < b;
    assert (b - i) % Lanes == 0;
  }

  /** Left-to-right binary32 accumulation of the widened operands onto acc:
      acc + w(ops[0]) + w(ops[1]) + ..., in that order. */
  function Accumulate(add: Add32, acc: bv32, ops: seq<bv16>): bv32
    decreases |ops|
  {
    if ops == [] then acc
    else add(Accumulate(add, acc, ops[..|ops| - 1]), Widen(ops[|ops| - 1]))
  }

  /** One element of a single kernel call: the in_out element and the source
      elements are widened, added in order in binary32, and rounded once. */
  function Combine(add: Add32, x: bv16, ops: seq<bv16>): bv16 {
    Narrow(Accumulate(add, Widen(x), ops))
  }

  /** One element of the pairwise fallback: a 2-way kernel call per source
      element, so the running value is rounded to bfloat16 after every addition. */
  function RoundEach(add: Add32, x: bv16, ops: seq<bv16>): bv16
    decreases |ops|
  {
    if ops == [] then x
    else Combine(add, RoundEach(add, x, ops[..|ops| - 1]), [ops[|ops| - 1]])
  }

  /** All rows have the same length. */
  predicate Shaped(rows: seq<seq<bv16>>, len: nat) {
    forall r :: 0 <= r < |rows| ==> |rows[r]| == len
  }

  /** Indices of source rows: every one is a row other than in_out. */
  predicate Sources(rows: seq<seq<bv16>>, idx: seq<nat>) {
    forall j :: 0 <= j < |idx| ==> 0 < idx[j] < |rows|
  }

  /** Element e of every source row, in the order of idx. */
  function Column(rows: seq<seq<bv16>>, idx: seq<nat>, e: nat): (c: seq<bv16>)
    requires Sources(rows, idx)
    requires forall j :: 0 <= j < |idx| ==> e < |rows[idx[j]]|
    ensures |c| == |idx|
    ensures forall j :: 0 <= j < |idx| ==> c[j] == rows[idx[j]][e]
  {
    seq(|idx|, j requires 0 <= j < |idx| => rows[idx[j]][e])
  }

  /** Extending the sources by one row extends the column by that row's element. */
  lemma ColumnSnoc(rows: seq<seq<bv16>>, idx: seq<nat>, e: nat, j: nat)
    requires Sources(rows, idx) && j < |idx|
    requires forall i :: 0 <= i < |idx| ==> e < |rows[idx[i]]|
    ensures Column(rows, idx[..j + 1], e) == Column(rows, idx[..j], e) + [rows[idx[j]][e]]
  {
  }

  /** Accumulating one more operand is one more addition. */
  lemma AccumulateSnoc(add: Add32, acc: bv32, ops: seq<bv16>, x: bv16)
    ensures Accumulate(add, acc, ops + [x]) == add(Accumulate(add, acc, ops), Widen(x))
  {
    assert (ops + [x])[..|ops|] == ops;
  }

  /** The rows 1 .. k-1, in order: the sources of a k-way reduction. */
  function Peers(k: int): (p: seq<nat>)
    ensures |p| == if k <= 1 then 0 else k - 1
    ensures forall j :: 0 <= j < |p| ==> p[j] == j + 1
  {
    if k <= 1 then [] else seq(k - 1, j requires 0 <= j < k - 1 => j + 1)
  }

  /** The in_out row after one kernel call with source rows idx: every element
      below Blocked(n) is combined with its column, the rest is untouched. */
  function KernelResult(add: Add32, rows: seq<seq<bv16>>, idx: seq<nat>, n: int): (out: seq<bv16>)
    requires 0 < |rows| && Shaped(rows, |rows[0]|) && Blocked(n) <= |rows[0]|
    requires Sources(rows, idx)
    ensures |out| == |rows[0]|
  {
    seq(|rows[0]|, e requires 0 <= e < |rows[0]| =>
      if e < Blocked(n) then Combine(add, rows[0][e], Column(rows, idx, e)) else rows[0][e])
  }

  /** The in_out row after the pairwise fallback over rows 1 .. k-1: one
      2-way kernel call per row, each on the row 0 the previous call left. */
  function PairwiseResult(add: Add32, rows: seq<seq<bv16>>, k: int, n: int): (out: seq<bv16>)
    requires 0 < |rows| && Shaped(rows, |rows[0]|) && Blocked(n) <= |rows[0]|
    requires k <= |rows|
    ensures |out| == |rows[0]|
    decreases k
  {
    if k <= 1 then rows[0]
    else KernelResult(add, rows[0 := PairwiseResult(add, rows, k - 1, n)], [k - 1], n)
  }

  /** The in_out row after reduce_all_bf16_buffers with k buffers: one k-way
      kernel for 3 <= k <= 8, the pairwise fallback otherwise. */
  function ReduceAllResult(add: Add32, rows: seq<seq<bv16>>, n: int, k: int): (out: seq<bv16>)
    requires 0 < |rows| && Shaped(rows, |rows[0]|) && Blocked(n) <= |rows[0]|
    requires k <= |rows|
    ensures |out| == |rows[0]|
  {
    if 3 <= k <= 8 then KernelResult(add, rows, Peers(k), n) else PairwiseResult(add, rows, k, n)
  }

  /** Element by element, the pairwise fallback rounds after every source
      row; above Blocked(n) it leaves in_out alone. */
  lemma {:induction false} PairwiseAt(add: Add32, rows: seq<seq<bv16>>, k: int, n: int, e: nat)
    requires 0 < |rows| && Shaped(rows, |rows[0]|) && Blocked(n) <= |rows[0]|
    requires k <= |rows| && e < |rows[0]|
    ensures PairwiseResult(add, rows, k, n)[e] ==
            if e < Blocked(n) then RoundEach(add, rows[0][e], Column(rows, Peers(k), e)) else rows[0][e]
    decreases k
  {
    if k > 1 {
      PairwiseAt(add, rows, k - 1, n, e);
      var c := Column(rows, Peers(k), e);
      assert c[..|c| - 1] == Column(rows, Peers(k - 1), e);
    }
  }

  /** Element by element, reduce_all_bf16_buffers combines element e of rows
      0 .. k-1 in one rounding for 3 <= k <= 8 and with a rounding per row
      otherwise, for every e below Blocked(n), and leaves the rest alone. */
  lemma ReduceAllAt(add: Add32, rows: seq<seq<bv16>>, n: int, k: int, e: nat)
    requires 0 < |rows| && Shaped(rows, |rows[0]|) && Blocked(n) <= |rows[0]|
    requires k <= |rows| && e < |rows[0]|
    ensures var c := Column(rows, Peers(k), e);
            ReduceAllResult(add, rows, n, k)[e] ==
            if e >= Blocked(n) then rows[0][e]
            else if 3 <= k <= 8 then Combine(add, rows[0][e], c)
            else RoundEach(add, rows[0][e], c)
  {
    if !(3 <= k <= 8) {
      PairwiseAt(add, rows, k, n, e);
    }
  }

  /** Each result element depends on that element of rows 0 .. k-1 only:
      other elements and rows k .. are never read. */
  lemma ReduceAllLocal(add: Add32, rows: seq<seq<bv16>>, rows': seq<seq<bv16>>, n: int, k: int, e: nat)
    requires 0 < |rows| && Shaped(rows, |rows[0]|) && Blocked(n) <= |rows[0]|
    requires 0 < |rows'| && Shaped(rows', |rows'[0]|) && Blocked(n) <= |rows'[0]|
    requires k <= |rows| && k <= |rows'| && e < |rows[0]| && e < |rows'[0]|
    requires forall r :: 0 <= r < k || r == 0 ==> rows[r][e] == rows'[r][e]
    ensures ReduceAllResult(add, rows, n, k)[e] == ReduceAllResult(add, rows', n, k)[e]
  {
    ReduceAllAt(add, rows, n, k, e);
    ReduceAllAt(add, rows', n, k, e);
    assert Column(rows, Peers(k), e) == Column(rows', Peers(k), e);
  }

  /** With two buffers the fallback is a single 2-way kernel call, so the
      result is rounded once, the same as a k-way kernel would give. */
  lemma TwoBuffersRoundOnce(add: Add32, rows: seq<seq<bv16>>, n: int)
    requires 2 <= |rows| && Shaped(rows, |rows[0]|) && Blocked(n) <= |rows[0]|
    ensures ReduceAllResult(add, rows, n, 2) == KernelResult(add, rows, [1], n)
  {
    assert rows[0 := rows[0]] == rows;
  }

  /** A binary32 addition that propagates NaN from either operand. */
  ghost predicate PropagatesNaN(add: Add32) {
    forall a, b :: IsNaN32(a) || IsNaN32(b) ==> IsNaN32(add(a, b))
  }

  /** The bfloat16 sentinel 0xffff that every NaN narrows to is itself a NaN. */
  lemma SentinelIsNaN()
    ensures IsNaN16(0xffff)
  {
  }

  /** Once the accumulator is a NaN it stays one. */
  lemma {:induction false} AccumulateKeepsNaN(add: Add32, acc: bv32, ops: seq<bv16>)
    requires PropagatesNaN(add) && IsNaN32(acc)
    ensures IsNaN32(Accumulate(add, acc, ops))
    decreases |ops|
  {
    if ops != [] {
      AccumulateKeepsNaN(add, acc, ops[..|ops| - 1]);
    }
  }

  /** A NaN anywhere among the operands makes the accumulation a NaN. */
  lemma {:induction false} AccumulateNaN(add: Add32, acc: bv32, ops: seq<bv16>)
    requires PropagatesNaN(add)
    requires IsNaN32(acc) || exists j :: 0 <= j < |ops| && IsNaN16(ops[j])
    ensures IsNaN32(Accumulate(add, acc, ops))
    decreases |ops|
  {
    if IsNaN32(acc) {
      AccumulateKeepsNaN(add, acc, ops);
    } else {
      var last := ops[|ops| - 1];
      if IsNaN16(last) {
        WidenKeepsNaN(last);
      } else {
        var j :| 0 <= j < |ops| && IsNaN16(ops[j]);
        assert ops[..|ops| - 1][j] == ops[j];
        AccumulateNaN(add, acc, ops[..|ops| - 1]);
      }
    }
  }

  /** A k-way kernel element is the NaN sentinel when any input element is a NaN. */
  lemma CombineNaN(add: Add32, x: bv16, ops: seq<bv16>)
    requires PropagatesNaN(add)
    requires IsNaN16(x) || exists j :: 0 <= j < |ops| && IsNaN16(ops[j])
    ensures Combine(add, x, ops) == 0xffff
  {
    if IsNaN16(x) {
      WidenKeepsNaN(x);
    }
    AccumulateNaN(add, Widen(x), ops);
  }

  /** The pairwise fallback too gives the NaN sentinel when any input is a NaN:
      the sentinel is a NaN, so it survives every later 2-way call. */
  lemma {:induction false} RoundEachNaN(add: Add32, x: bv16, ops: seq<bv16>)
    requires PropagatesNaN(add) && ops != []
    requires IsNaN16(x) || exists j :: 0 <= j < |ops| && IsNaN16(ops[j])
    ensures RoundEach(add, x, ops) == 0xffff
    decreases |ops|
  {
    var init := ops[..|ops| - 1];
    var last := ops[|ops| - 1];
    if IsNaN16(last) {
      assert [last][0] == last;
      CombineNaN(add, RoundEach(add, x, init), [last]);
    } else {
      assert IsNaN16(x) || exists j :: 0 <= j < |init| && IsNaN16(init[j]) by {
        if !IsNaN16(x) {
          var j :| 0 <= j < |ops| && IsNaN16(ops[j]);
          assert j < |init| && init[j] == ops[j];
        }
      }
      if init == [] {
        CombineNaN(add, x, [last]);
      } else {
        RoundEachNaN(add, x, init);
        SentinelIsNaN();
        CombineNaN(add, RoundEach(add, x, init), [last]);
      }
    }
  }

  // ---------------------------------------------------------------------
  // The kernels on the shared workspace.
  // ---------------------------------------------------------------------

  /** The rows of the workspace as values. */
  function Snapshot(buf: array2<bv16>): (rows: seq<seq<bv16>>)
    reads buf
    ensures |rows| == buf.Length0 && Shaped(rows, buf.Length1)
    ensures forall r, e :: 0 <= r < buf.Length0 && 0 <= e < buf.Length1 ==> rows[r][e] == buf[r, e]
  {
    seq(buf.Length0, r reads buf requires 0 <= r < buf.Length0 =>
      seq(buf.Length1, e reads buf requires 0 <= e < buf.Length1 => buf[r, e]))
  }

  /** Two shaped row sequences that agree on every element are equal. */
  lemma RowsEqual(a: seq<seq<bv16>>, b: seq<seq<bv16>>, len: nat)
    requires |a| == |b| && Shaped(a, len) && Shaped(b, len)
    requires forall r, e :: 0 <= r < |a| && 0 <= e < len ==> a[r][e] == b[r][e]
    ensures a == b
  {
    forall r | 0 <= r < |a|
      ensures a[r] == b[r]
    {
      assert forall e :: 0 <= e < len ==> a[r][e] == b[r][e];
    }
  }

  /** _mm256_loadu_si256 of 16 elements of a row, starting at element i. */
  function LoadBlock(buf: array2<bv16>, r: nat, i: nat): (v: seq<bv16>)
    reads buf
    requires r < buf.Length0 && i + Lanes <= buf.Length1
    ensures |v| == Lanes
    ensures forall l :: 0 <= l < Lanes ==> v[l] == buf[r, i + l]
  {
    seq(Lanes, l reads buf requires 0 <= l < Lanes => buf[r, i + l])
  }

  /** A loaded vector is the slice of 16 elements of that row of the rows. */
  lemma LoadBlockIsSlice(buf: array2<bv16>, r: nat, i: nat)
    requires r < buf.Length0 && i + Lanes <= buf.Length1
    ensures LoadBlock(buf, r, i) == Snapshot(buf)[r][i..i + Lanes]
  {
  }

  /** _mm512_add_ps: lane-wise binary32 addition. */
  function AddVectors(add: Add32, a: seq<bv32>, b: seq<bv32>): (s: seq<bv32>)
    requires |a| == Lanes && |b| == Lanes
    ensures |s| == Lanes
    ensures forall l :: 0 <= l < Lanes ==> s[l] == add(a[l], b[l])
  {
    seq(Lanes, l requires 0 <= l < Lanes => add(a[l], b[l]))
  }

  /** Adding a widened vector of 16 elements lane by lane extends each lane's
      left-to-right accumulation by that lane's element. */
  lemma AddVectorsAccumulates(add: Add32, acc: seq<bv32>, b: seq<bv16>, l: nat, start: bv32, ops: seq<bv16>)
    requires |acc| == Lanes && |b| == Lanes && l < Lanes
    requires acc[l] == Accumulate(add, start, ops)
    ensures AddVectors(add, acc, CvtBf16ToFp32(b))[l] == Accumulate(add, start, ops + [b[l]])
  {
    AccumulateSnoc(add, start, ops, b[l]);
  }

  /** _mm256_storeu_si256 of 16 elements into row 0 at element i. */
  method StoreBlock(buf: array2<bv16>, i: nat, v: seq<bv16>)
    requires 0 < buf.Length0 && i + Lanes <= buf.Length1 && |v| == Lanes
    modifies buf
    ensures forall r, e :: 0 <= r < buf.Length0 && 0 <= e < buf.Length1 ==>
              buf[r, e] == if r == 0 && i <= e < i + Lanes then v[e - i] else old(buf[r, e])
  {
    forall e | i <= e < i + Lanes {
      buf[0, e] := v[e - i];
    }
  }

  /** The additions of one vector of a kernel call: in_out's vector at
      element i widened, then each source vector widened and added in order.
      S holds what the rows contained before the call; the elements this
      vector reads have not been written yet. */
  method AccumulateBlock(buf: array2<bv16>, ghost S: seq<seq<bv16>>, srcs: seq<nat>, i: nat, add: Add32)
    returns (acc: seq<bv32>)
    requires 0 < buf.Length0 && i + Lanes <= buf.Length1
    requires |S| == buf.Length0 && Shaped(S, buf.Length1) && Sources(S, srcs)
    requires forall r, e :: 0 <= r < buf.Length0 && i <= e < i + Lanes ==> buf[r, e] == S[r][e]
    ensures |acc| == Lanes
    ensures forall l :: 0 <= l < Lanes ==>
              acc[l] == Accumulate(add, Widen(S[0][i + l]), Column(S, srcs, i + l))
  {
    acc := CvtBf16ToFp32(LoadBlock(buf, 0, i));
    var j := 0;
    while j < |srcs|
      invariant 0 <= j <= |srcs| && |acc| == Lanes
      invariant forall l :: 0 <= l < Lanes ==>
                  acc[l] == Accumulate(add, Widen(S[0][i + l]), Column(S, srcs[..j], i + l))
    {
      var b := LoadBlock(buf, srcs[j], i);
      ghost var old_acc := acc;
      acc := AddVectors(add, acc, CvtBf16ToFp32(b));
      forall l | 0 <= l < Lanes
        ensures acc[l] == Accumulate(add, Widen(S[0][i + l]), Column(S, srcs[..j + 1], i + l))
      {
        ColumnSnoc(S, srcs, i + l, j);
        AddVectorsAccumulates(add, old_acc, b, l, Widen(S[0][i + l]), Column(S, srcs[..j], i + l));
      }
      j := j + 1;
    }
    assert srcs[..|srcs|] == srcs;
  }

  /** One kernel call: reduce_bf16_buffers for a single source row and
      reduce_k_bf16_buffers for k - 1 = 2 .. 7 source rows. Vector by vector,
      in_out is widened, each source vector is widened and added in order,
      and the sum is narrowed back into in_out. */
  method ReduceKernel(buf: array2<bv16>, srcs: seq<nat>, n: int, add: Add32)
    requires 0 < buf.Length0 && Blocked(n) <= buf.Length1
    requires 1 <= |srcs| <= 7 && Sources(Snapshot(buf), srcs)
    modifies buf
    ensures forall r, e :: 0 <= r < buf.Length0 && 0 <= e < buf.Length1 ==>
              buf[r, e] == if r == 0 then KernelResult(add, old(Snapshot(buf)), srcs, n)[e] else old(buf[r, e])
  {
    ghost var S := Snapshot(buf);
    ghost var out := KernelResult(add, S, srcs, n);
    var i := 0;
    while i < n
      invariant 0 <= i <= Blocked(n) && i % Lanes == 0
      invariant forall r, e :: 0 <= r < buf.Length0 && 0 <= e < buf.Length1 ==>
                  buf[r, e] == if r == 0 && e < i then out[e] else S[r][e]
      decreases n - i
    {
      BlockFits(n, i);
      var acc := AccumulateBlock(buf, S, srcs, i, add);
      var v := CvtFp32ToBf16(acc);
      assert forall l :: 0 <= l < Lanes ==> v[l] == out[i + l];
      StoreBlock(buf, i, v);
      i := i + Lanes;
    }
    if n > 0 {
      BlockedIsLeast(n, i);
    }
  }

  /** reduce_bf16_buffers: the 2-way kernel, in_out += row src. */
  method ReduceBf16Buffers(buf: array2<bv16>, src: nat, n: int, add: Add32)
    requires 0 < src < buf.Length0 && Blocked(n) <= buf.Length1
    modifies buf
    ensures forall r, e :: 0 <= r < buf.Length0 && 0 <= e < buf.Length1 ==>
              buf[r, e] == if r == 0 then KernelResult(add, old(Snapshot(buf)), [src], n)[e] else old(buf[r, e])
  {
    ReduceKernel(buf, [src], n, add);
  }

  /** The fallback of reduce_all_bf16_buffers: 2-way calls on rows
      1, 2, .., k-1 in turn. */
  method ReducePairwise(buf: array2<bv16>, n: int, k: int, add: Add32)
    requires 0 < buf.Length0 && k <= buf.Length0 && Blocked(n) <= buf.Length1
    modifies buf
    ensures forall r, e :: 0 <= r < buf.Length0 && 0 <= e < buf.Length1 ==>
              buf[r, e] == if r == 0 then PairwiseResult(add, old(Snapshot(buf)), k, n)[e] else old(buf[r, e])
  {
    ghost var S := Snapshot(buf);
    var i := 1;
    while i < k
      invariant 1 <= i <= buf.Length0 && (i == 1 || i <= k)
      invariant forall r, e :: 0 <= r < buf.Length0 && 0 <= e < buf.Length1 ==>
                  buf[r, e] == if r == 0 then PairwiseResult(add, S, i, n)[e] else S[r][e]
    {
      ghost var before := S[0 := PairwiseResult(add, S, i, n)];
      RowsEqual(Snapshot(buf), before, buf.Length1);
      assert PairwiseResult(add, S, i + 1, n) == KernelResult(add, before, [i], n);
      ReduceBf16Buffers(buf, i, n, add);
      i := i + 1;
    }
    if k <= 1 {
      assert PairwiseResult(add, S, k, n) == S[0] == PairwiseResult(add, S, i, n);
    }
  }

  /** reduce_all_bf16_buffers: the k-way kernel for 3 <= k <= 8, otherwise
      the pairwise fallback. */
  method ReduceAllBf16Buffers(buf: array2<bv16>, n: int, k: int, add: Add32)
    requires 0 < buf.Length0 && k <= buf.Length0 && Blocked(n) <= buf.Length1
    modifies buf
    ensures forall r, e :: 0 <= r < buf.Length0 && 0 <= e < buf.Length1 ==>
              buf[r, e] == if r == 0 then ReduceAllResult(add, old(Snapshot(buf)), n, k)[e] else old(buf[r, e])
  {
    if 3 <= k <= 8 {
      ReduceKernel(buf, Peers(k), n, add);
    } else {
      ReducePairwise(buf, n, k, add);
    }
  }
}
