/** The bit-serial CRC of the IMU link, and the errors it is guaranteed to see.

    The source keeps the register as a `u16`; `ShiftRegister` keeps it as its sixteen bits, most
    significant first. `Xor16`, `Shl16` and the top bit are tied to the register's operations, and
    the loops, which run on the number, to feeding the register. It starts at 0xFFFF, uses
    generator 0x1021, reflects nothing and applies no final exclusive-or. */
module Crc16 {
  import opened Words
  import opened ShiftRegister

  /** The low `n` bits of a number, the most significant first. */
  function BitsOf(v: nat, n: nat): (bits: seq<bool>)
    ensures |bits| == n
  {
    if n == 0 then [] else BitsOf(v / 2, n - 1) + [v % 2 == 1]
  }

  function NumberOf(bits: seq<bool>): nat {
    if bits == [] then 0
    else 2 * NumberOf(bits[..|bits| - 1]) + (if bits[|bits| - 1] then 1 else 0)
  }

  function Pow2(n: nat): nat { if n == 0 then 1 else 2 * Pow2(n - 1) }

  lemma {:induction false} NumberRoundTrip(v: nat, n: nat)
    requires v < Pow2(n)
    ensures NumberOf(BitsOf(v, n)) == v
    decreases n
  {
    if n > 0 {
      NumberRoundTrip(v / 2, n - 1);
      assert BitsOf(v, n)[..n - 1] == BitsOf(v / 2, n - 1);
    }
  }

  lemma {:induction false} BitsRoundTrip(bits: seq<bool>)
    ensures NumberOf(bits) < Pow2(|bits|)
    ensures BitsOf(NumberOf(bits), |bits|) == bits
    decreases |bits|
  {
    if bits != [] {
      BitsRoundTrip(bits[..|bits| - 1]);
    }
  }

  lemma Powers()
    ensures Pow2(8) == 0x100 && Pow2(16) == 0x1_0000
  {
    assert Pow2(4) == 16;
    assert Pow2(8) == 256;
    assert Pow2(12) == 4096;
  }

  /** Transmission order: the most significant bit of each byte first. */
  function Bits(bytes: Bytes): (bits: seq<bool>)
    ensures |bits| == 8 * |bytes|
  {
    seq(8 * |bytes|, k requires 0 <= k < 8 * |bytes| => BitsOf(bytes[k / 8], 8)[k % 8])
  }

  function RegisterOf(v: u16): Register {
    BitsOf(v, 16)
  }

  function ValueOf(r: Register): u16 {
    BitsRoundTrip(r);
    Powers();
    NumberOf(r)
  }

  /** The checksum of a message: all its bits through the register, in order. */
  function Crc(bytes: Bytes): u16 {
    ValueOf(Feed(ONES, Bits(bytes)))
  }

  /** The register after `crc << 1`. */
  function Shl(r: Register): Register {
    r[1..] + [false]
  }

  lemma BitsSnoc(bytes: Bytes)
    requires bytes != []
    ensures Bits(bytes) == Bits(bytes[..|bytes| - 1]) + BitsOf(bytes[|bytes| - 1], 8)
  {
  }

  /** 0x1021. */
  const GENERATOR: Register :=
    [false, false, false, true,
     false, false, false, false,
     false, false, true, false,
     false, false, false, true]

  // ----------------------------------------------------------- the register as a number

  /** Bitwise exclusive-or of the low `n` bits. */
  function XorBits(x: nat, y: nat, n: nat): nat {
    if n == 0 then 0 else 2 * XorBits(x / 2, y / 2, n - 1) + (x + y) % 2
  }

  lemma XorBitsStep(x: nat, y: nat, n: nat)
    requires n > 0
    ensures XorBits(x, y, n) / 2 == XorBits(x / 2, y / 2, n - 1)
    ensures XorBits(x, y, n) % 2 == (x + y) % 2
  {
  }

  lemma BitDiffers(x: nat, y: nat)
    ensures ((x + y) % 2 == 1) == ((x % 2 == 1) != (y % 2 == 1))
  {
  }

  lemma {:induction false} XorBitsIs(x: nat, y: nat, n: nat)
    ensures XorBits(x, y, n) < Pow2(n)
    ensures BitsOf(XorBits(x, y, n), n) == Xor(BitsOf(x, n), BitsOf(y, n))
    decreases n
  {
    if n > 0 {
      XorBitsIs(x / 2, y / 2, n - 1);
      XorBitsStep(x, y, n);
      BitDiffers(x, y);
      hide XorBits;
    }
  }

  function Xor16(x: u16, y: u16): u16 {
    XorBitsIs(x, y, 16);
    Powers();
    XorBits(x, y, 16)
  }

  function Shl16(x: u16): u16 { 2 * x % 0x1_0000 }

  /** `^` on numbers adds registers. */
  lemma XorIsPlus(x: u16, y: u16)
    ensures RegisterOf(Xor16(x, y)) == Plus(RegisterOf(x), RegisterOf(y))
  {
    XorBitsIs(x, y, 16);
  }

  lemma {:induction false} BitsIgnoreHigh(v: nat, n: nat)
    ensures BitsOf(v + Pow2(n), n) == BitsOf(v, n)
    decreases n
  {
    if n > 0 {
      assert (v + Pow2(n)) / 2 == v / 2 + Pow2(n - 1);
      BitsIgnoreHigh(v / 2, n - 1);
    }
  }

  lemma {:induction false} BitsTail(v: nat, n: nat)
    requires n > 0
    ensures BitsOf(v, n)[1..] == BitsOf(v, n - 1)
    decreases n
  {
    if n > 1 {
      BitsTail(v / 2, n - 1);
    }
  }

  lemma DoubledBits(v: nat, n: nat)
    requires n > 0
    ensures BitsOf(2 * v, n) == BitsOf(v, n - 1) + [false]
  {
  }

  lemma ShiftedValue(x: u16)
    ensures Shl16(x) == 2 * x || Shl16(x) + 0x1_0000 == 2 * x
  {
  }

  /** `<< 1` on a `u16` drops the top bit and appends an empty one. */
  lemma ShlIsShift(x: u16)
    ensures RegisterOf(Shl16(x)) == Shl(RegisterOf(x))
  {
    hide BitsOf, Shl16;
    Powers();
    BitsTail(x, 16);
    DoubledBits(x, 16);
    ShiftedValue(x);
    BitsIgnoreHigh(Shl16(x), 16);
  }

  lemma {:induction false} TopBit(v: nat, n: nat)
    requires n > 0 && v < Pow2(n)
    ensures BitsOf(v, n)[0] <==> v >= Pow2(n - 1)
    decreases n
  {
    if n > 1 {
      TopBit(v / 2, n - 1);
    }
  }

  /** `& 0x8000 != 0` looks at the top bit. */
  lemma TopBit16(x: u16)
    ensures RegisterOf(x)[0] <==> x >= 0x8000
  {
    Powers();
    assert Pow2(16) == 2 * Pow2(15);
    TopBit(x, 16);
  }

  lemma {:induction false} BitsSplit(a: nat, b: nat, m: nat, n: nat)
    requires b < Pow2(n)
    ensures BitsOf(a * Pow2(n) + b, m + n) == BitsOf(a, m) + BitsOf(b, n)
    decreases n
  {
    if n == 0 {
      assert BitsOf(a, m) + BitsOf(b, 0) == BitsOf(a, m);
    } else {
      var p := a * Pow2(n - 1);
      assert a * Pow2(n) + b == 2 * p + b;
      assert (2 * p + b) / 2 == p + b / 2 && (2 * p + b) % 2 == b % 2;
      BitsSplit(a, b / 2, m, n - 1);
    }
  }

  lemma {:induction false} NoughtBits(n: nat)
    ensures BitsOf(0, n) == seq(n, _ => false)
    decreases n
  {
    if n > 0 {
      NoughtBits(n - 1);
    }
  }

  /** `(byte as u16) << 8` puts a byte on top of the register. */
  function High(b: u8): u16 { 0x100 * b as int }

  lemma HighByte(b: u8)
    ensures RegisterOf(High(b)) == Pad(BitsOf(b, 8))
  {
    Powers();
    BitsSplit(b, 0, 8, 8);
    NoughtBits(8);
  }

  lemma FourBits(v: nat, n: nat)
    ensures BitsOf(v, n + 4) == BitsOf(v / 16, n) + [v / 8 % 2 == 1, v / 4 % 2 == 1, v / 2 % 2 == 1, v % 2 == 1]
  {
    assert BitsOf(v, n + 4) == BitsOf(v / 2, n + 3) + [v % 2 == 1];
    assert BitsOf(v / 2, n + 3) == BitsOf(v / 4, n + 2) + [v / 2 % 2 == 1];
    assert BitsOf(v / 4, n + 2) == BitsOf(v / 8, n + 1) + [v / 4 % 2 == 1];
    assert BitsOf(v / 8, n + 1) == BitsOf(v / 16, n) + [v / 8 % 2 == 1];
  }

  lemma NoBitsOf(v: nat)
    ensures BitsOf(v, 0) == []
  {
  }

  /** 0x1021 and 0xFFFF as registers. */
  lemma GeneratorIs1021()
    ensures RegisterOf(0x1021) == GENERATOR
  {
    hide BitsOf;
    NoBitsOf(0);
    FourBits(0x1, 0);
    FourBits(0x10, 4);
    FourBits(0x102, 8);
    FourBits(0x1021, 12);
    assert BitsOf(0x10, 8) == [false, false, false, true, false, false, false, false];
  }

  lemma OnesIsFFFF()
    ensures RegisterOf(0xFFFF) == ONES
  {
    hide BitsOf;
    NoBitsOf(0);
    FourBits(0xF, 0);
    FourBits(0xFF, 4);
    FourBits(0xFFF, 8);
    FourBits(0xFFFF, 12);
    assert BitsOf(0xFF, 8) == [true, true, true, true, true, true, true, true];
  }

  /** The two branches of the source's inner loop, on the number. */
  function Turn(crc: u16): u16 {
    if crc >= 0x8000 then Xor16(Shl16(crc), 0x1021) else Shl16(crc)
  }

  lemma TurnIsStep(crc: u16)
    ensures RegisterOf(Turn(crc)) == Step(RegisterOf(crc))
  {
    ShlIsShift(crc);
    TopBit16(crc);
    XorIsPlus(Shl16(crc), 0x1021);
    GeneratorIs1021();
    hide RegisterOf, Xor16, Shl16;
    ShiftAndAdd(RegisterOf(crc));
  }

  lemma ShiftAndAdd(r: Register)
    ensures Step(r) == if r[0] then Plus(Shl(r), GENERATOR) else Shl(r)
  {
  }

  lemma AbsorbByte(bytes: Bytes, i: nat)
    requires i < |bytes|
    ensures Feed(ONES, Bits(bytes[..i + 1]))
         == StepN(Plus(Feed(ONES, Bits(bytes[..i])), Pad(BitsOf(bytes[i], 8))), 8)
  {
    var front, byte := bytes[..i + 1][..i], BitsOf(bytes[i], 8);
    assert front == bytes[..i];
    BitsSnoc(bytes[..i + 1]);
    FeedAppend(ONES, Bits(front), byte);
    FeedPad(Feed(ONES, Bits(front)), byte);
  }

  /** The inner loop of the source. */
  method ShiftEight(start: u16) returns (crc: u16)
    ensures RegisterOf(crc) == StepN(RegisterOf(start), 8)
  {
    hide RegisterOf, Step;
    crc := start;
    for j := 0 to 8
      invariant StepN(RegisterOf(crc), 8 - j) == StepN(RegisterOf(start), 8)
    {
      TurnIsStep(crc);
      if crc >= 0x8000 {
        crc := Xor16(Shl16(crc), 0x1021);
      } else {
        crc := Shl16(crc);
      }
    }
  }

  lemma NumberOfRegister(v: u16)
    ensures ValueOf(RegisterOf(v)) == v
  {
    Powers();
    NumberRoundTrip(v, 16);
  }

  /** The outer loop: the number the source computes is what the bit-serial register holds. */
  method ComputeCrc(bytes: Bytes) returns (crc: u16)
    ensures crc == Crc(bytes)
  {
    hide RegisterOf, Bits, Pad, StepN, BitsOf;
    OnesIsFFFF();
    crc := 0xFFFF;
    assert bytes[..0] == [];
    NoBits();
    for i := 0 to |bytes|
      invariant RegisterOf(crc) == Feed(ONES, Bits(bytes[..i]))
    {
      AbsorbByte(bytes, i);
      HighByte(bytes[i]);
      XorIsPlus(crc, High(bytes[i]));
      crc := ShiftEight(Xor16(crc, High(bytes[i])));
    }
    assert bytes[..|bytes|] == bytes;
    NumberOfRegister(crc);
  }

  lemma NoBits()
    ensures Feed(ONES, Bits([])) == ONES
  {
  }

  // ------------------------------------------------------------------------- damage

  lemma ByteFromBits(x: u8, y: u8)
    requires BitsOf(x, 8) == BitsOf(y, 8)
    ensures x == y
  {
    Powers();
    NumberRoundTrip(x, 8);
    NumberRoundTrip(y, 8);
  }

  lemma DifferentBytesDifferInABit(a: Bytes, b: Bytes)
    requires |a| == |b| && a != b
    ensures exists k :: 0 <= k < 8 * |a| && Bits(a)[k] != Bits(b)[k]
  {
    var i :| 0 <= i < |a| && a[i] != b[i];
    if BitsOf(a[i], 8) == BitsOf(b[i], 8) {
      ByteFromBits(a[i], b[i]);
    }
    var j :| 0 <= j < 8 && BitsOf(a[i], 8)[j] != BitsOf(b[i], 8)[j];
    assert Bits(a)[8 * i + j] != Bits(b)[8 * i + j];
  }

  /** Two messages of one length have registers that differ by what their difference leaves
      in an initially empty register. */
  lemma CrcDifference(a: Bytes, b: Bytes)
    requires |a| == |b|
    ensures Plus(RegisterOf(Crc(a)), RegisterOf(Crc(b))) == Feed(ZERO, Xor(Bits(a), Bits(b)))
  {
    FeedLinear(ONES, ONES, Bits(a), Bits(b));
    assert Plus(ONES, ONES) == ZERO;
    BitsRoundTrip(Feed(ONES, Bits(a)));
    BitsRoundTrip(Feed(ONES, Bits(b)));
  }

  predicate ChangedWithin(a: Bytes, b: Bytes, p: nat)
    requires |a| == |b|
  {
    forall k :: 0 <= k < 8 * |a| && Bits(a)[k] != Bits(b)[k] ==> p <= k < p + 16
  }

  /** Burst detection: a message that differs from another of the same length, but only
      inside some sixteen consecutive bits, never has its checksum. */
  lemma BurstChangesCrc(a: Bytes, b: Bytes, p: nat)
    requires |a| == |b| && a != b
    requires ChangedWithin(a, b, p)
    ensures Crc(a) != Crc(b)
  {
    var e := Xor(Bits(a), Bits(b));
    DifferentBytesDifferInABit(a, b);
    var k :| 0 <= k < 8 * |a| && Bits(a)[k] != Bits(b)[k];
    assert e[k];
    BurstLeavesTrace(e, p);
    CrcDifference(a, b);
    assert Plus(RegisterOf(Crc(a)), RegisterOf(Crc(a))) == ZERO;
  }
}
