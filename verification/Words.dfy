/** Machine integers as ranges of `int`, and their little-endian bytes. */
module Words {
  type u8 = x: int | 0 <= x < 0x100
  type u16 = x: int | 0 <= x < 0x1_0000
  type u32 = x: int | 0 <= x < 0x1_0000_0000
  type i16 = x: int | -0x8000 <= x < 0x8000
  type i32 = x: int | -0x8000_0000 <= x < 0x8000_0000

  type Bytes = seq<u8>

  /** Servo positions in ticks, by servo id. */
  type Pose = map<u8, u16>

  datatype JointCommand = JointCommand(servoId: u8, positionTicks: u16, speedTicks: u16, acceleration: u8)

  function Magnitude(x: int): nat { if x < 0 then -x else x }

  predicate Distinct(ids: seq<u8>) {
    forall i, j :: 0 <= i < j < |ids| ==> ids[i] != ids[j]
  }

  function Le16(v: u16): (b: Bytes)
    ensures |b| == 2
  {
    [v % 0x100, v / 0x100]
  }

  function Le32(v: u32): (b: Bytes)
    ensures |b| == 4
  {
    [v % 0x100, v / 0x100 % 0x100, v / 0x1_0000 % 0x100, v / 0x100_0000]
  }

  /** Two's complement. */
  function Unsigned16(v: i16): u16 { if v < 0 then v + 0x1_0000 else v }

  function Signed16(v: u16): i16 { if v >= 0x8000 then v - 0x1_0000 else v }

  function Unsigned32(v: i32): u32 { if v < 0 then v + 0x1_0000_0000 else v }

  function Signed32(v: u32): i32 { if v >= 0x8000_0000 then v - 0x1_0000_0000 else v }

  function Word16(b0: u8, b1: u8): u16 { b0 + 0x100 * b1 }

  function Word32(b0: u8, b1: u8, b2: u8, b3: u8): u32 {
    b0 + 0x100 * b1 + 0x1_0000 * b2 + 0x100_0000 * b3
  }

  function U16At(b: Bytes, i: nat): u16
    requires i + 2 <= |b|
  {
    Word16(b[i], b[i + 1])
  }

  function U32At(b: Bytes, i: nat): u32
    requires i + 4 <= |b|
  {
    Word32(b[i], b[i + 1], b[i + 2], b[i + 3])
  }

  lemma Le16RoundTrip(v: u16)
    ensures U16At(Le16(v), 0) == v
  {
  }

  lemma Le32RoundTrip(v: u32)
    ensures U32At(Le32(v), 0) == v
  {
    var w, x: int := v / 0x100, v / 0x1_0000;
    assert v == v % 0x100 + 0x100 * w;
    assert w == w % 0x100 + 0x100 * x;
    assert x == x % 0x100 + 0x100 * (v / 0x100_0000);
  }

  lemma U16Bytes(b: Bytes, i: nat)
    requires i + 2 <= |b|
    ensures Le16(U16At(b, i)) == b[i..i + 2]
  {
  }

  lemma U32Bytes(b: Bytes, i: nat)
    requires i + 4 <= |b|
    ensures Le32(U32At(b, i)) == b[i..i + 4]
  {
    FourDigits(b[i], b[i + 1], b[i + 2], b[i + 3]);
  }

  lemma FourDigits(b0: u8, b1: u8, b2: u8, b3: u8)
    ensures Le32(b0 + 0x100 * b1 + 0x1_0000 * b2 + 0x100_0000 * b3) == [b0, b1, b2, b3]
  {
    var x: int := b2 + 0x100 * b3;
    var w: int := b1 + 0x100 * x;
    Digit(b2, b3);
    Digit(b1, x);
    Digit(b0, w);
    QuotientOfQuotient(b0 + 0x100 * w);
  }

  lemma Digit(b: u8, rest: nat)
    ensures (b + 0x100 * rest) / 0x100 == rest && (b + 0x100 * rest) % 0x100 == b
  {
  }

  lemma QuotientOfQuotient(v: nat)
    ensures v / 0x100 / 0x100 == v / 0x1_0000 && v / 0x1_0000 / 0x100 == v / 0x100_0000
  {
  }
}
