/** Bit-level conversions between bfloat16 and IEEE 754 binary32 patterns,
    as done by the AVX-512 helpers of the CPU communication backend.
    A bfloat16 value is the top half of a binary32 value; no floating-point
    arithmetic is needed to state either direction. */
module Bf16 {

  /** Elements per 512-bit vector (16 lanes of 32 bits, or 16 bfloat16 values in 256 bits). */
  const Lanes: nat := 16

  /** Binary32 NaN (section 3.4 of IEEE 754-2008): exponent all ones, fraction non-zero. */
  predicate IsNaN32(v: bv32) {
    (v >> 23) & 0xff == 0xff && v & 0x7f_ffff != 0
  }

  /** bfloat16 NaN: exponent (bits 14..7) all ones, fraction (bits 6..0) non-zero. */
  predicate IsNaN16(b: bv16) {
    (b >> 7) & 0xff == 0xff && b & 0x7f != 0
  }

  /** Widening of one element: the bfloat16 pattern becomes the upper half of
      the binary32 pattern and the lower half is zero. */
  function Widen(b: bv16): (r: bv32)
    ensures (r >> 16) as bv16 == b
    ensures r & 0xffff == 0
  {
    (b as bv32) << 16
  }

  // ---------------------------------------------------------------------
  // cvt_bf16_to_fp32: zero-extend each 16-bit element to 32 bits, then shift
  // every 128-bit lane left by two bytes.

  /** _mm512_cvtepu16_epi32: zero-extension of every element. */
  function ZeroExtend(src: seq<bv16>): (r: seq<bv32>)
    ensures |r| == |src|
    ensures forall l :: 0 <= l < |src| ==> r[l] == Extend(src[l])
  {
    seq(|src|, l requires 0 <= l < |src| => Extend(src[l]))
  }

  /** Every zero-extended element has nothing in its upper half and the
      element in its lower half: shifting it up by 16 widens the element. */
  lemma ZeroExtendHalves(src: seq<bv16>, l: nat)
    requires l < |src|
    ensures ZeroExtend(src)[l] >> 16 == 0
    ensures ZeroExtend(src)[l] << 16 == Widen(src[l])
  {
    ExtendHigh(src[l]);
    ExtendThenShift(src[l]);
  }

  /** Zero-extension of one element. */
  function Extend(b: bv16): bv32 {
    b as bv32
  }

  /** Element m (0..3) of a 128-bit lane. */
  function Element32(lane: bv128, m: nat): bv32
    requires m < 4
  {
    var shifted := if m == 0 then lane else if m == 1 then lane >> 32 else if m == 2 then lane >> 64 else lane >> 96;
    (shifted & 0xffff_ffff) as bv32
  }

  /** _mm512_bslli_epi128(v, 2), element by element: shifting a 128-bit lane
      left by two bytes moves the low half of every 32-bit element to its
      high half and brings in the high half of the next lower element of the
      same lane (zero for the lowest element of a lane). */
  function ByteShiftLanes(v: seq<bv32>): (r: seq<bv32>)
    requires |v| == Lanes
    ensures |r| == Lanes
  {
    seq(Lanes, l requires 0 <= l < Lanes => ShiftedElement(v, l))
  }

  function ShiftedElement(v: seq<bv32>, l: nat): bv32
    requires |v| == Lanes && l < Lanes
  {
    if l % 4 == 0 then v[l] << 16 else (v[l] << 16) | (v[l - 1] >> 16)
  }

  // The element-wise description agrees with the 128-bit shift: for a lane
  // holding a0 (lowest) .. a3, element m of the lane shifted left by 16 bits
  // is element m shifted left by 16 bits, or-ed with the upper half of
  // element m - 1.

  /** The 128-bit lane made of four 32-bit elements, a0 lowest. */
  function PackLane(a0: bv32, a1: bv32, a2: bv32, a3: bv32): bv128 {
    (a0 as bv128) | ((a1 as bv128) << 32) | ((a2 as bv128) << 64) | ((a3 as bv128) << 96)
  }

  /** Element 0 of a shifted lane takes nothing from outside itself. */
  lemma ShiftElement0(a0: bv32, a1: bv32, a2: bv32, a3: bv32)
    ensures Element32(PackLane(a0, a1, a2, a3) << 16, 0) == a0 << 16
  {
  }

  lemma ShiftElement1(a0: bv32, a1: bv32, a2: bv32, a3: bv32)
    ensures Element32(PackLane(a0, a1, a2, a3) << 16, 1) == (a1 << 16) | (a0 >> 16)
  {
  }

  lemma ShiftElement2(a0: bv32, a1: bv32, a2: bv32, a3: bv32)
    ensures Element32(PackLane(a0, a1, a2, a3) << 16, 2) == (a2 << 16) | (a1 >> 16)
  {
  }

  lemma ShiftElement3(a0: bv32, a1: bv32, a2: bv32, a3: bv32)
    ensures Element32(PackLane(a0, a1, a2, a3) << 16, 3) == (a3 << 16) | (a2 >> 16)
  {
  }

  /** The lowest element of a 128-bit lane only moves up. */
  lemma ShiftedLowest(v: seq<bv32>, l: nat, x: bv32)
    requires |v| == Lanes && l < Lanes && l % 4 == 0 && x == v[l]
    ensures ByteShiftLanes(v)[l] == x << 16
  {
  }

  /** Every other element takes in the upper half of the element below it. */
  lemma ShiftedCarry(v: seq<bv32>, l: nat, x: bv32, below: bv32)
    requires |v| == Lanes && 0 < l < Lanes && l % 4 != 0 && x == v[l] && below == v[l - 1]
    ensures ByteShiftLanes(v)[l] == (x << 16) | (below >> 16)
  {
  }

  /** ByteShiftLanes is _mm512_bslli_epi128(v, 2): element m of 128-bit lane
      q is element m of that lane, packed from its four elements and shifted
      left by 16 bits. */
  lemma ByteShiftLanesIsLaneShift(v: seq<bv32>, q: nat, m: nat)
    requires |v| == Lanes && q < 4 && m < 4
    ensures ByteShiftLanes(v)[4 * q + m]
            == Element32(PackLane(v[4 * q], v[4 * q + 1], v[4 * q + 2], v[4 * q + 3]) << 16, m)
  {
    if m == 0 {
      LaneShift0(v, q);
    } else if m == 1 {
      LaneShift1(v, q);
    } else if m == 2 {
      LaneShift2(v, q);
    } else {
      LaneShift3(v, q);
    }
  }

  /** ByteShiftLanesIsLaneShift, one element position of the lane at a time. */
  lemma LaneShift0(v: seq<bv32>, q: nat)
    requires |v| == Lanes && q < 4
    ensures ByteShiftLanes(v)[4 * q]
            == Element32(PackLane(v[4 * q], v[4 * q + 1], v[4 * q + 2], v[4 * q + 3]) << 16, 0)
  {
    var a0, a1, a2, a3 := v[4 * q], v[4 * q + 1], v[4 * q + 2], v[4 * q + 3];
    ShiftedLowest(v, 4 * q, a0);
    ShiftElement0(a0, a1, a2, a3);
  }

  lemma LaneShift1(v: seq<bv32>, q: nat)
    requires |v| == Lanes && q < 4
    ensures ByteShiftLanes(v)[4 * q + 1]
            == Element32(PackLane(v[4 * q], v[4 * q + 1], v[4 * q + 2], v[4 * q + 3]) << 16, 1)
  {
    var a0, a1, a2, a3 := v[4 * q], v[4 * q + 1], v[4 * q + 2], v[4 * q + 3];
    ShiftedCarry(v, 4 * q + 1, a1, a0);
    ShiftElement1(a0, a1, a2, a3);
  }

  lemma LaneShift2(v: seq<bv32>, q: nat)
    requires |v| == Lanes && q < 4
    ensures ByteShiftLanes(v)[4 * q + 2]
            == Element32(PackLane(v[4 * q], v[4 * q + 1], v[4 * q + 2], v[4 * q + 3]) << 16, 2)
  {
    var a0, a1, a2, a3 := v[4 * q], v[4 * q + 1], v[4 * q + 2], v[4 * q + 3];
    ShiftedCarry(v, 4 * q + 2, a2, a1);
    ShiftElement2(a0, a1, a2, a3);
  }

  lemma LaneShift3(v: seq<bv32>, q: nat)
    requires |v| == Lanes && q < 4
    ensures ByteShiftLanes(v)[4 * q + 3]
            == Element32(PackLane(v[4 * q], v[4 * q + 1], v[4 * q + 2], v[4 * q + 3]) << 16, 3)
  {
    var a0, a1, a2, a3 := v[4 * q], v[4 * q + 1], v[4 * q + 2], v[4 * q + 3];
    ShiftedCarry(v, 4 * q + 3, a3, a2);
    ShiftElement3(a0, a1, a2, a3);
  }

  /** Each shifted element: its upper half is the element's lower half, its
      lower half the upper half of the element below it in the same 128-bit
      lane, or zero for the lowest element of a lane. */
  lemma ByteShiftHalves(v: seq<bv32>, l: nat)
    requires |v| == Lanes && l < Lanes
    ensures ByteShiftLanes(v)[l] >> 16 == v[l] & 0xffff
    ensures ByteShiftLanes(v)[l] & 0xffff == if l % 4 == 0 then 0 else v[l - 1] >> 16
  {
    if l % 4 == 0 {
      ShiftedLowest(v, l, v[l]);
      LowestHalves(v[l]);
    } else {
      ShiftedCarry(v, l, v[l], v[l - 1]);
      CarriedHalves(v[l], v[l - 1]);
    }
  }

  lemma LowestHalves(x: bv32)
    ensures (x << 16) >> 16 == x & 0xffff && (x << 16) & 0xffff == 0
  {
  }

  lemma CarriedHalves(x: bv32, below: bv32)
    ensures ((x << 16) | (below >> 16)) >> 16 == x & 0xffff
    ensures ((x << 16) | (below >> 16)) & 0xffff == below >> 16
  {
  }

  /** cvt_bf16_to_fp32 on one vector of 16 elements: lane for lane the same
      as widening each element on its own, because after the zero-extension
      no element has anything in its upper half to pass to its neighbour. */
  function CvtBf16ToFp32(src: seq<bv16>): (r: seq<bv32>)
    requires |src| == Lanes
    ensures |r| == Lanes
    ensures forall l :: 0 <= l < Lanes ==> r[l] == Widen(src[l])
  {
    var z := ZeroExtend(src);
    var r := ByteShiftLanes(z);
    assert forall l :: 0 <= l < Lanes ==> r[l] == Widen(src[l]) by {
      forall l | 0 <= l < Lanes
        ensures r[l] == Widen(src[l])
      {
        ExtendThenShift(src[l]);
        ExtendHigh(src[l]);
        if l % 4 != 0 { ExtendHigh(src[l - 1]); }
      }
    }
    r
  }

  /** A zero-extended element has nothing in its upper half. */
  lemma ExtendHigh(b: bv16)
    ensures Extend(b) >> 16 == 0
  {
  }

  lemma ExtendThenShift(b: bv16)
    ensures Extend(b) << 16 == Widen(b)
  {
  }

  // ---------------------------------------------------------------------
  // cvt_fp32_to_bf16, one lane at a time (every AVX-512 operation it uses is
  // lane-wise).

  /** add (lsb + 0x7fff) in 32-bit wrap-around arithmetic, then keep the upper half. */
  function RoundedShift(v: bv32): bv32 {
    var lsb := (v >> 16) & 0x1;
    var bias := lsb + 0x7fff;
    (bias + v) >> 16
  }

  /** _mm512_cvtusepi32_epi16: unsigned saturation of a 32-bit lane to 16
      bits, the greatest 16-bit value not above t. */
  function SaturateU16(t: bv32): (r: bv16)
    ensures Extend(r) <= t
  {
    if t > 0xffff then 0xffff else t as bv16
  }

  /** No 16-bit value not above t is above the saturated value. */
  lemma SaturateIsGreatest(t: bv32, x: bv16)
    requires Extend(x) <= t
    ensures x <= SaturateU16(t)
  {
  }

  /** Round-half-to-even of the upper 16 bits, from the discarded lower half:
      an independent statement of roundTiesToEven (section 4.3.1 of IEEE 754-2008). */
  function RoundHalfEvenTop(v: bv32): bv32 {
    var hi := v >> 16;
    var lo := v & 0xffff;
    if lo > 0x8000 || (lo == 0x8000 && hi & 1 == 1) then hi + 1 else hi
  }

  /** The bias addition carries into the upper half exactly when the lower
      half is above one half, or is one half and the upper half is odd. */
  predicate RoundsUp(v: bv32) {
    var lo := v & 0xffff;
    lo > 0x8000 || (lo == 0x8000 && (v >> 16) & 1 == 1)
  }

  /** When the lower half is above one half, or is one half with an odd upper
      half, the bias carries into the upper half and it goes up by one. */
  lemma RoundedShiftUp(v: bv32)
    requires v >> 16 < 0xffff && RoundsUp(v)
    ensures RoundedShift(v) == (v >> 16) + 1
  {
  }

  /** Otherwise the bias stays in the lower half and the upper half is kept. */
  lemma RoundedShiftDown(v: bv32)
    requires !RoundsUp(v)
    ensures RoundedShift(v) == v >> 16
  {
  }

  /** For a non-NaN input the bias arithmetic is round-half-to-even of the upper half. */
  lemma RoundedShiftIsRoundHalfEven(v: bv32)
    requires !IsNaN32(v)
    ensures RoundedShift(v) == RoundHalfEvenTop(v)
  {
    if RoundsUp(v) {
      assert v >> 16 < 0xffff;
      RoundedShiftUp(v);
    } else {
      RoundedShiftDown(v);
    }
  }

  /** cvt_fp32_to_bf16 on one lane: rounding by bias, the ordered self-compare
      that detects NaN, the blend with 0xffff, the saturating narrowing. */
  function Narrow(v: bv32): (r: bv16)
    ensures IsNaN32(v) ==> r == 0xffff
    ensures !IsNaN32(v) ==> r as bv32 == RoundHalfEvenTop(v)
  {
    var ordered := !IsNaN32(v);           // _mm512_cmp_ps_mask(src, src, _CMP_ORD_Q)
    var t := RoundedShift(v);
    var blended := if ordered then t else 0xffff;
    SaturationInactive(v);
    if ordered then RoundedShiftIsRoundHalfEven(v); SaturateU16(blended)
    else SaturateU16(blended)
  }

  /** cvt_fp32_to_bf16 on one vector of 16 lanes: NaN lanes give the
      sentinel 0xffff, every other lane is rounded half to even. */
  function CvtFp32ToBf16(src: seq<bv32>): (r: seq<bv16>)
    requires |src| == Lanes
    ensures |r| == Lanes
    ensures forall l :: 0 <= l < Lanes && IsNaN32(src[l]) ==> r[l] == 0xffff
    ensures forall l :: 0 <= l < Lanes && !IsNaN32(src[l]) ==> r[l] as bv32 == RoundHalfEvenTop(src[l])
    ensures forall l :: 0 <= l < Lanes ==> r[l] == Narrow(src[l])
  {
    seq(Lanes, l requires 0 <= l < Lanes => Narrow(src[l]))
  }

  /** The rounding arithmetic always leaves a value below 2^16, so the
      saturation never changes it. */
  lemma SaturationInactive(v: bv32)
    ensures RoundedShift(v) <= 0xffff
  {
  }

  /** For a non-NaN input the bias addition never wraps around, whatever the
      sign: the largest non-NaN pattern is negative infinity 0xff80_0000. */
  lemma BiasNeverWraps(v: bv32)
    requires !IsNaN32(v)
    ensures ((v >> 16) & 1) + 0x7fff <= 0xffff_ffff - v
  {
  }

  /** r is a nearest bfloat16 pattern to v, ties to even: its widening is
      within half a bfloat16 unit (0x8000) of v, and on an exact tie r is even. */
  predicate NearestEven(v: bv32, r: bv16) {
    var w := Widen(r);
    (v <= w ==> w - v <= 0x8000) && (w <= v ==> v - w <= 0x8000)
    && (w - v == 0x8000 || v - w == 0x8000 ==> r & 1 == 0)
  }

  /** Narrowing is round to nearest, ties to even, on the bit pattern. */
  lemma NarrowIsNearestEven(v: bv32)
    requires !IsNaN32(v)
    ensures NearestEven(v, Narrow(v))
  {
    var r := Narrow(v);
    if RoundsUp(v) {
      UpperHalfBelowMax(v);
      NarrowUpValue(v);
      NearestUp(v, r);
    } else {
      NarrowDownValue(v);
      NearestDown(v, r);
    }
  }

  lemma UpperHalfBelowMax(v: bv32)
    requires !IsNaN32(v)
    ensures v >> 16 < 0xffff
  {
  }

  lemma NarrowUpValue(v: bv32)
    requires !IsNaN32(v) && RoundsUp(v)
    ensures Narrow(v) as bv32 == (v >> 16) + 1
  {
  }

  lemma NarrowDownValue(v: bv32)
    requires !IsNaN32(v) && !RoundsUp(v)
    ensures Narrow(v) as bv32 == v >> 16
  {
  }

  lemma NearestUp(v: bv32, r: bv16)
    requires v >> 16 < 0xffff && RoundsUp(v) && r as bv32 == (v >> 16) + 1
    ensures NearestEven(v, r)
  {
  }

  lemma NearestDown(v: bv32, r: bv16)
    requires !RoundsUp(v) && r as bv32 == v >> 16
    ensures NearestEven(v, r)
  {
    DownBounds(v, r);
  }

  lemma DownBounds(v: bv32, r: bv16)
    requires !RoundsUp(v) && r as bv32 == v >> 16
    ensures var w := Widen(r);
            w <= v && v - w <= 0x8000 && (v - w == 0x8000 ==> r & 1 == 0)
  {
  }

  /** Widening keeps NaN-ness: a bfloat16 NaN widens to a binary32 NaN and nothing else does. */
  lemma WidenKeepsNaN(b: bv16)
    ensures IsNaN32(Widen(b)) <==> IsNaN16(b)
  {
  }

  /** Round trip: narrowing a widened value gives it back, except that every
      NaN comes back as the sentinel 0xffff. */
  lemma NarrowWiden(b: bv16)
    ensures Narrow(Widen(b)) == if IsNaN16(b) then 0xffff else b
  {
    WidenKeepsNaN(b);
  }

  /** A binary32 value that is exactly representable in bfloat16 (its lower
      half is zero) survives narrowing and widening unchanged. */
  lemma WidenNarrow(v: bv32)
    requires !IsNaN32(v) && v & 0xffff == 0
    ensures Widen(Narrow(v)) == v
  {
  }
}
