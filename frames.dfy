/**
 * The frame assembler. A PS/2 device sends each scan code as an 11-bit
 * frame, one bit per falling edge of the clock line: a start bit, eight data
 * bits least significant first, an odd-parity bit and a stop bit.
 */
module Frames {
  import opened Wrappers

  /** Falling edges per frame. */
  const FrameLength: nat := 11

  /**
   * The assembler's locals: the 16-bit shift register `packet` (kept as its
   * unsigned value), the count of bits sampled in this frame, the scan code
   * built so far, the latched parity bit and the clock level seen on the
   * previous polling iteration.
   */
  datatype Assembler = Assembler(packet: nat, bitsReceived: nat, code: bv8, parity: bool, lastClock: bool)

  /** The range of the unsigned 16-bit shift register. */
  const PacketRange: nat := 0x1_0000

  /** A completed frame: its scan code and its parity bit. */
  datatype Frame = Frame(code: bv8, parity: bool)

  /** The frame locals with nothing received, as at power-on and after each frame. */
  function Cleared(lastClock: bool): (a: Assembler)
    ensures Holds(a, []) && a.lastClock == lastClock
  {
    Assembler(0, 0, 0, false, lastClock)
  }

  /** The clock was high on the previous iteration and is low now. */
  predicate IsFallingEdge(lastClock: bool, clk: bool)
  {
    lastClock && !clk
  }

  /** The byte with only bit `i` set. */
  function Mask8(i: nat): (m: bv8)
    requires i < 8
  {
    match i
    case 0 => 0x01 case 1 => 0x02 case 2 => 0x04 case 3 => 0x08
    case 4 => 0x10 case 5 => 0x20 case 6 => 0x40 case _ => 0x80
  }

  /** Bit `i` of a byte is set. */
  predicate Bit8(c: bv8, i: nat)
    requires i < 8
  {
    c & Mask8(i) != 0
  }

  /** The number of set bits among the `n` lowest bits of `c`. */
  function CountBelow(c: bv8, n: nat): (k: nat)
    requires n <= 8
    ensures k <= n
  {
    if n == 0 then 0 else CountBelow(c, n - 1) + (if Bit8(c, n - 1) then 1 else 0)
  }

  /** The number of set bits of a byte (`count_ones`). */
  function Popcount(c: bv8): (k: nat)
    ensures k <= 8
  {
    CountBelow(c, 8)
  }

  /**
   * The decoder's parity check: it reports a failure when the low bit of the
   * code's popcount equals the parity bit, that is when the eight data bits
   * and the parity bit together hold an even number of ones.
   */
  function ParityFails(code: bv8, parity: bool): (fails: bool)
    ensures fails <==> (Popcount(code) + if parity then 1 else 0) % 2 == 0
  {
    Popcount(code) % 2 == (if parity then 1 else 0)
  }

  /**
   * The odd-parity bit a device sends with a byte: high exactly when the byte
   * has an even number of ones. The check accepts this bit and no other.
   */
  function OddParityBit(c: bv8): (p: bool)
    ensures !ParityFails(c, p) && ParityFails(c, !p)
  {
    Popcount(c) % 2 == 0
  }

  /** The eleven bits a device sends for `c`, in the order they are clocked out. */
  function EncodeFrame(c: bv8): (bits: seq<bool>)
    ensures |bits| == FrameLength
    ensures !bits[0] && bits[9] == OddParityBit(c) && bits[10]
    ensures forall i :: 0 <= i < 8 ==> bits[i + 1] == Bit8(c, i)
  {
    [false] + seq(8, i requires 0 <= i < 8 => Bit8(c, i)) + [OddParityBit(c), true]
  }

  /**
   * What one falling edge does to the frame locals before the end-of-frame
   * test: shift the data bit into `packet` (a 16-bit shift left, which drops
   * the top bit, then an OR into the cleared bit 0), OR frame bits 1..8 into bit
   * positions 0..7 of the code, latch frame bit 9 as the parity, count the bit.
   */
  function Sample(a: Assembler, dat: bool): (r: Assembler)
    ensures r.bitsReceived == a.bitsReceived + 1 && r.lastClock == a.lastClock
  {
    var d: bv8 := if dat then 1 else 0;
    Assembler(
      (a.packet * 2) % PacketRange + (if dat then 1 else 0),
      a.bitsReceived + 1,
      if 1 <= a.bitsReceived <= 8 then a.code | (d << (a.bitsReceived - 1)) else a.code,
      if a.bitsReceived == 9 then dat else a.parity,
      a.lastClock)
  }

  /**
   * One polling iteration of the assembler with clock level `clk` and data
   * level `dat`. Only a falling edge samples; the eleventh sample completes
   * the frame and clears the frame locals. The clock level is remembered on
   * every iteration.
   */
  function Clock(a: Assembler, clk: bool, dat: bool): (r: (Assembler, Option<Frame>))
    ensures r.0.lastClock == clk
    ensures !IsFallingEdge(a.lastClock, clk) ==> r == (a.(lastClock := clk), None)
    ensures r.1.Some? <==> IsFallingEdge(a.lastClock, clk) && a.bitsReceived + 1 == FrameLength
    ensures r.1.Some? ==> r.0 == Cleared(clk)
    ensures IsFallingEdge(a.lastClock, clk) && r.1.None? ==> r.0.bitsReceived == a.bitsReceived + 1
    ensures a.bitsReceived < FrameLength ==> r.0.bitsReceived < FrameLength
  {
    if !IsFallingEdge(a.lastClock, clk) then
      (a.(lastClock := clk), None)
    else
      var s := Sample(a, dat);
      if s.bitsReceived == FrameLength then
        (Cleared(clk), Some(Frame(s.code, s.parity)))
      else
        (s.(lastClock := clk), None)
  }

  /** Data bit `i` (frame bit `i + 1`) of the bits received is set in `c`, and no other bit is. */
  ghost predicate CodeHolds(c: bv8, bits: seq<bool>)
  {
    forall i :: 0 <= i < 8 ==> (Bit8(c, i) <==> i + 1 < |bits| && bits[i + 1])
  }

  /** The bits received read as a binary numeral, the earliest bit most significant. */
  function PacketValue(bits: seq<bool>): (v: nat)
    ensures v < Pow2(|bits|)
  {
    if bits == [] then 0 else 2 * PacketValue(bits[..|bits| - 1]) + (if bits[|bits| - 1] then 1 else 0)
  }

  function Pow2(n: nat): (p: nat)
    ensures p >= 1
  {
    if n == 0 then 1 else 2 * Pow2(n - 1)
  }

  /** The frame locals are exactly what sampling `bits` since the last reset leaves. */
  ghost predicate Holds(a: Assembler, bits: seq<bool>)
  {
    |bits| <= FrameLength
    && a.bitsReceived == |bits|
    && CodeHolds(a.code, bits)
    && a.parity == (9 < |bits| && bits[9])
    && a.packet == PacketValue(bits)
  }

  /** OR-ing in bit `k` sets that bit and leaves the others. */
  lemma OrInBit(c: bv8, k: nat, i: nat)
    requires k < 8 && i < 8
    ensures Bit8(c | Mask8(k), i) <==> Bit8(c, i) || i == k
  {
  }

  /**
   * A falling edge shifts the sampled bit into the register; since a frame is
   * shorter than the register, nothing is shifted out.
   */
  lemma SamplePacket(a: Assembler, bits: seq<bool>, dat: bool)
    requires |bits| < FrameLength && a.packet == PacketValue(bits)
    ensures Sample(a, dat).packet == PacketValue(bits + [dat])
  {
    assert (bits + [dat])[..|bits|] == bits;
    PowMonotone(|bits|, 10);
    assert Pow2(10) == 1024 by {
      assert Pow2(2) == 4;
      assert Pow2(4) == 16;
      assert Pow2(6) == 64;
      assert Pow2(8) == 256;
    }
    var doubled := a.packet * 2;
    assert 0 <= doubled < PacketRange;
    assert doubled % PacketRange == doubled;
  }

  lemma {:induction false} PowMonotone(m: nat, n: nat)
    requires m <= n
    ensures Pow2(m) <= Pow2(n)
  {
    if m < n {
      PowMonotone(m, n - 1);
    }
  }

  /** On frame bits 1..8 a high data bit is OR-ed in at bit position `bitsReceived - 1`. */
  lemma SampleSetsBit(a: Assembler, dat: bool)
    requires 1 <= a.bitsReceived <= 8
    ensures Sample(a, dat).code == if dat then a.code | Mask8(a.bitsReceived - 1) else a.code
  {
  }

  /** Setting the bit of data position `|bits| - 1` extends the code by a high bit. */
  lemma SetBitHolds(c: bv8, bits: seq<bool>)
    requires 1 <= |bits| <= 8 && CodeHolds(c, bits)
    ensures CodeHolds(c | Mask8(|bits| - 1), bits + [true])
  {
    var c', bits' := c | Mask8(|bits| - 1), bits + [true];
    forall i | 0 <= i < 8
      ensures Bit8(c', i) <==> i + 1 < |bits'| && bits'[i + 1]
    {
      SetBitAt(c, bits, i);
    }
  }

  lemma SetBitAt(c: bv8, bits: seq<bool>, i: nat)
    requires 1 <= |bits| <= 8 && i < 8 && CodeHolds(c, bits)
    ensures Bit8(c | Mask8(|bits| - 1), i) <==> i + 1 < |bits| + 1 && (bits + [true])[i + 1]
  {
    OrInBit(c, |bits| - 1, i);
    assert Bit8(c, i) <==> i + 1 < |bits| && bits[i + 1];
  }

  /** A code that holds `bits` also holds them followed by any bit it leaves clear. */
  lemma KeepBitHolds(c: bv8, bits: seq<bool>, dat: bool)
    requires CodeHolds(c, bits) && (1 <= |bits| <= 8 ==> !dat)
    ensures CodeHolds(c, bits + [dat])
  {
  }

  /** A falling edge on a data bit ORs that bit into the code. */
  lemma SampleCode(a: Assembler, bits: seq<bool>, dat: bool)
    requires |bits| < FrameLength && a.bitsReceived == |bits| && CodeHolds(a.code, bits)
    ensures CodeHolds(Sample(a, dat).code, bits + [dat])
  {
    if 1 <= |bits| <= 8 {
      SampleSetsBit(a, dat);
      if dat {
        SetBitHolds(a.code, bits);
      } else {
        KeepBitHolds(a.code, bits, dat);
      }
    } else {
      KeepBitHolds(a.code, bits, dat);
    }
  }

  /** A falling edge extends the bits received by the sampled bit. */
  lemma SampleHolds(a: Assembler, bits: seq<bool>, dat: bool)
    requires Holds(a, bits) && |bits| < FrameLength
    ensures Holds(Sample(a, dat), bits + [dat])
  {
    SamplePacket(a, bits, dat);
    SampleCode(a, bits, dat);
  }

  /**
   * The assembler invariant across one polling iteration: without a falling
   * edge the bits received stay the same; a falling edge appends the data bit;
   * the eleventh completes a frame whose code holds frame bits 1..8 and whose
   * parity is frame bit 9, and starts the next frame empty.
   */
  lemma {:induction false} ClockHolds(a: Assembler, bits: seq<bool>, clk: bool, dat: bool)
    requires Holds(a, bits) && |bits| < FrameLength
    ensures !IsFallingEdge(a.lastClock, clk) ==> Holds(Clock(a, clk, dat).0, bits) && Clock(a, clk, dat).1.None?
    ensures IsFallingEdge(a.lastClock, clk) && |bits| + 1 < FrameLength ==>
              Holds(Clock(a, clk, dat).0, bits + [dat]) && Clock(a, clk, dat).1.None?
    ensures IsFallingEdge(a.lastClock, clk) && |bits| + 1 == FrameLength ==>
              Holds(Clock(a, clk, dat).0, []) && Clock(a, clk, dat).1.Some?
              && CodeHolds(Clock(a, clk, dat).1.value.code, bits + [dat])
              && Clock(a, clk, dat).1.value.parity == bits[9]
  {
    if IsFallingEdge(a.lastClock, clk) {
      SampleHolds(a, bits, dat);
    }
  }

  /** The data bits determine the code: two codes that hold the same bits are equal. */
  lemma CodeDetermined(c: bv8, c': bv8, bits: seq<bool>)
    requires CodeHolds(c, bits) && CodeHolds(c', bits)
    ensures c == c'
  {
    assert Bit8(c, 0) == Bit8(c', 0) && Bit8(c, 1) == Bit8(c', 1);
    assert Bit8(c, 2) == Bit8(c', 2) && Bit8(c, 3) == Bit8(c', 3);
    assert Bit8(c, 4) == Bit8(c', 4) && Bit8(c, 5) == Bit8(c', 5);
    assert Bit8(c, 6) == Bit8(c', 6) && Bit8(c, 7) == Bit8(c', 7);
  }

  /** Flipping bit `i` changes bit `i` and no other. */
  lemma XorBit(c: bv8, i: nat, j: nat)
    requires i < 8 && j < 8
    ensures Bit8(c ^ Mask8(i), j) <==> Bit8(c, j) != (i == j)
  {
  }

  /** Flipping bit `i` changes the popcount by one. */
  lemma {:induction false} FlipCount(c: bv8, i: nat, n: nat)
    requires i < 8 && n <= 8
    ensures CountBelow(c ^ Mask8(i), n) ==
              if n <= i then CountBelow(c, n) else if Bit8(c, i) then CountBelow(c, n) - 1 else CountBelow(c, n) + 1
  {
    if n > 0 {
      var flipped := c ^ Mask8(i);
      FlipCount(c, i, n - 1);
      XorBit(c, i, n - 1);
      assert CountBelow(flipped, n) == CountBelow(flipped, n - 1) + if Bit8(flipped, n - 1) then 1 else 0;
      assert CountBelow(c, n) == CountBelow(c, n - 1) + if Bit8(c, n - 1) then 1 else 0;
    }
  }

  /**
   * Odd parity detects every single-bit error: a frame whose parity bit was
   * computed for `c` fails the check once any one data bit is flipped.
   */
  lemma SingleBitErrorDetected(c: bv8, i: nat)
    requires i < 8
    ensures ParityFails(c ^ Mask8(i), OddParityBit(c))
  {
    FlipCount(c, i, 8);
  }

  /** The numeric value of one bit. */
  function Weight(b: bool): (w: nat)
    ensures w <= 1
  {
    if b then 1 else 0
  }

  /** The bits read as a binary numeral, the earliest bit least significant. */
  function LsbValue(bits: seq<bool>): (v: nat)
    ensures v < Pow2(|bits|)
  {
    if bits == [] then 0 else Weight(bits[0]) + 2 * LsbValue(bits[1..])
  }

  /** A code is the sum of its set bits' weights. */
  lemma BitWeights(c: bv8)
    ensures c as int == Weight(Bit8(c, 0)) + 2 * Weight(Bit8(c, 1)) + 4 * Weight(Bit8(c, 2))
                      + 8 * Weight(Bit8(c, 3)) + 16 * Weight(Bit8(c, 4)) + 32 * Weight(Bit8(c, 5))
                      + 64 * Weight(Bit8(c, 6)) + 128 * Weight(Bit8(c, 7))
  {
  }

  /** Eight bits read least significant first, written out. */
  lemma LsbValueOfEight(d: seq<bool>)
    requires |d| == 8
    ensures LsbValue(d) == Weight(d[0]) + 2 * Weight(d[1]) + 4 * Weight(d[2]) + 8 * Weight(d[3])
                         + 16 * Weight(d[4]) + 32 * Weight(d[5]) + 64 * Weight(d[6]) + 128 * Weight(d[7])
  {
    assert d[0..] == d && d[8..] == [];
    LsbValueFrom(d, 0);
    LsbValueFrom(d, 1);
    LsbValueFrom(d, 2);
    LsbValueFrom(d, 3);
    LsbValueFrom(d, 4);
    LsbValueFrom(d, 5);
    LsbValueFrom(d, 6);
    LsbValueFrom(d, 7);
  }

  lemma LsbValueFrom(d: seq<bool>, k: nat)
    requires k < |d|
    ensures LsbValue(d[k..]) == Weight(d[k]) + 2 * LsbValue(d[k + 1..])
  {
  }

  /**
   * The code assembled from a frame is the number that frame bits 1..8
   * spell, least significant first: the sum of bit i times 2^(i-1).
   */
  lemma CodeValue(c: bv8, bits: seq<bool>)
    requires |bits| >= 9 && CodeHolds(c, bits)
    ensures c as int == LsbValue(bits[1..9])
  {
    var d := bits[1..9];
    forall i | 0 <= i < 8
      ensures Weight(Bit8(c, i)) == Weight(d[i])
    {
    }
    BitWeights(c);
    LsbValueOfEight(d);
  }

  /** Complementing a byte complements each of its bits. */
  lemma NotBit(c: bv8, i: nat)
    requires i < 8
    ensures Bit8(!c, i) <==> !Bit8(c, i)
  {
  }

  /** The complement of a byte has its unset bits set. */
  lemma {:induction false} CountBelowComplement(c: bv8, n: nat)
    requires n <= 8
    ensures CountBelow(!c, n) == n - CountBelow(c, n)
  {
    if n > 0 {
      CountBelowComplement(c, n - 1);
      NotBit(c, n - 1);
    }
  }

  /** A byte and its complement hold eight set bits between them. */
  lemma PopcountComplement(c: bv8)
    ensures Popcount(!c) == 8 - Popcount(c)
  {
    CountBelowComplement(c, 8);
  }
}
