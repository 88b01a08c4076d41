/** The frames of the IMU link byte by byte: what is on the wire, in numbers, and which frames are
    refused for which reason. */
module WireFormat {
  import opened Results
  import opened Words
  import opened ShiftRegister
  import opened PowersOfX
  import opened Crc16
  import opened ImuFrame
  import opened FrameParser

  // ---------------------------------------------------------------------------- numbers

  /** The 16 and 32-bit numbers at a place, the low byte first. */
  function Number16(b: Bytes, i: nat): int
    requires i + 2 <= |b|
  {
    b[i] as int + 256 * b[i + 1] as int
  }

  function Number32(b: Bytes, i: nat): int
    requires i + 4 <= |b|
  {
    b[i] as int + 256 * b[i + 1] as int + 65536 * b[i + 2] as int + 16777216 * b[i + 3] as int
  }

  /** A number on the wire stands for a signed one: they are equal modulo the word. */
  predicate Stands16(wire: int, value: i16) { wire == if value < 0 then value + 65536 else value }

  predicate Stands32(wire: int, value: i32) { wire == if value < 0 then value + 4294967296 else value }

  lemma Le16Numbers(v: u16)
    ensures Number16(Le16(v), 0) == v
  {
  }

  lemma Le32Numbers(v: u32)
    ensures Number32(Le32(v), 0) == v
  {
    Le32RoundTrip(v);
  }

  lemma Part16(b: Bytes, i: nat, part: Bytes)
    requires |part| == 2 && i + 2 <= |b| && b[i..i + 2] == part
    ensures Number16(b, i) == Number16(part, 0)
  {
    assert b[i] == b[i..i + 2][0] && b[i + 1] == b[i..i + 2][1];
  }

  lemma Part32(b: Bytes, i: nat, part: Bytes)
    requires |part| == 4 && i + 4 <= |b| && b[i..i + 4] == part
    ensures Number32(b, i) == Number32(part, 0)
  {
    assert b[i] == b[i..i + 4][0] && b[i + 1] == b[i..i + 4][1];
    assert b[i + 2] == b[i..i + 4][2] && b[i + 3] == b[i..i + 4][3];
  }

  lemma Wire16(b: Bytes, i: nat, v: i16)
    requires i + 2 <= |b| && b[i..i + 2] == Le16(Unsigned16(v))
    ensures Stands16(Number16(b, i), v)
  {
    Part16(b, i, Le16(Unsigned16(v)));
    Le16Numbers(Unsigned16(v));
  }

  lemma Wire32(b: Bytes, i: nat, v: i32)
    requires i + 4 <= |b| && b[i..i + 4] == Le32(Unsigned32(v))
    ensures Stands32(Number32(b, i), v)
  {
    Part32(b, i, Le32(Unsigned32(v)));
    Le32Numbers(Unsigned32(v));
  }

  // ------------------------------------------------------------------------- the frames

  /** The header: two sync bytes, version 1, the kind, the payload's length, the sequence. */
  predicate Headed(f: Bytes, kind: u8, length: u8, sequence: u8) {
    |f| >= 6 && f[0] == 0xA5 && f[1] == 0x5A && f[2] == 1 && f[3] == kind && f[4] == length && f[5] == sequence
  }

  /** A sample on the wire: 34 bytes, kind 1. */
  predicate SampleBytes(f: Bytes, sequence: u8, s: ImuSample) {
    && |f| == 34 && Headed(f, 1, 26, sequence)
    && Number32(f, 6) == s.timestampUs
    && Stands16(Number16(f, 10), s.accelMg.x) && Stands16(Number16(f, 12), s.accelMg.y)
    && Stands16(Number16(f, 14), s.accelMg.z)
    && Stands32(Number32(f, 16), s.gyroMdps.x) && Stands32(Number32(f, 20), s.gyroMdps.y)
    && Stands32(Number32(f, 24), s.gyroMdps.z)
    && Stands16(Number16(f, 28), s.temperatureCentiC) && Number16(f, 30) == s.status
    && Number16(f, 32) == Crc(f[..32])
  }

  lemma SampleOnTheWire(sequence: u8, s: ImuSample)
    ensures SampleBytes(EncodeSample(sequence, s), sequence, s)
  {
    var f := EncodeSample(sequence, s);
    SampleHeader(sequence, s);
    SampleLayout(sequence, s, Le16(Crc(SampleBody(sequence, s))));
    SealedNumbers(SampleBody(sequence, s));
    SampleFields(f, s);
    assert forall i :: 0 <= i < 6 ==> f[i] == SampleBody(sequence, s)[..6][i];
    hide SampleBody, Crc, Number16, Number32, Stands16, Stands32;
  }

  lemma SampleFields(f: Bytes, s: ImuSample)
    requires |f| == 34
    requires f[6..10] == Le32(s.timestampUs) && f[10..16] == AccelBytes(s.accelMg) && f[16..28] == GyroBytes(s.gyroMdps)
    requires f[28..30] == Le16(Unsigned16(s.temperatureCentiC)) && f[30..32] == Le16(s.status)
    ensures Number32(f, 6) == s.timestampUs && Number16(f, 30) == s.status
    ensures Stands16(Number16(f, 10), s.accelMg.x) && Stands16(Number16(f, 12), s.accelMg.y)
         && Stands16(Number16(f, 14), s.accelMg.z) && Stands16(Number16(f, 28), s.temperatureCentiC)
    ensures Stands32(Number32(f, 16), s.gyroMdps.x) && Stands32(Number32(f, 20), s.gyroMdps.y)
         && Stands32(Number32(f, 24), s.gyroMdps.z)
  {
    hide Number16, Number32, Le16, Le32, Unsigned16, Unsigned32, Stands16, Stands32;
    var (a, g) := (s.accelMg, s.gyroMdps);
    Part32(f, 6, Le32(s.timestampUs));
    Le32Numbers(s.timestampUs);
    Part16(f, 30, Le16(s.status));
    Le16Numbers(s.status);
    ThirdsFound(f, 10, 2, Le16(Unsigned16(a.x)), Le16(Unsigned16(a.y)), Le16(Unsigned16(a.z)));
    Wire16(f, 10, a.x);
    Wire16(f, 12, a.y);
    Wire16(f, 14, a.z);
    ThirdsFound(f, 16, 4, Le32(Unsigned32(g.x)), Le32(Unsigned32(g.y)), Le32(Unsigned32(g.z)));
    Wire32(f, 16, g.x);
    Wire32(f, 20, g.y);
    Wire32(f, 24, g.z);
    Wire16(f, 28, s.temperatureCentiC);
  }

  /** The checksum follows the body, the low byte first. */
  lemma SealedNumbers(body: Bytes)
    ensures var f := Sealed(body);
            |f| == |body| + 2 && f[..|body|] == body && Number16(f, |body|) == Crc(body)
  {
    Part16(Sealed(body), |body|, Le16(Crc(body)));
    Le16Numbers(Crc(body));
  }

  /** The code of a sensor on the wire. */
  function SensorNumber(sensor: SensorKind): int {
    match sensor
    case Unknown => 0
    case Mock => 1
    case Mpu9250 => 2
    case Mpu6500 => 3
    case Mpu6050 => 4
    case Faulted => 255
  }

  /** A device info on the wire: 20 bytes, kind 2. */
  predicate InfoBytes(f: Bytes, sequence: u8, info: DeviceInfo) {
    && |f| == 20 && Headed(f, 2, 12, sequence)
    && f[6] == info.firmwareVersion.x && f[7] == info.firmwareVersion.y && f[8] == info.firmwareVersion.z
    && f[9] == SensorNumber(info.sensorKind)
    && Number16(f, 10) == info.sampleHz && Number16(f, 12) == info.capabilities
    && f[14] == info.faultCode && f[15] == info.observedWhoAmI && f[16] == info.spiMode && f[17] == info.reserved
    && Number16(f, 18) == Crc(f[..18])
  }

  lemma InfoOnTheWire(sequence: u8, info: DeviceInfo)
    ensures InfoBytes(EncodeInfo(sequence, info), sequence, info)
  {
    hide Crc;
    SealedNumbers(InfoBody(sequence, info));
    var (f, body) := (EncodeInfo(sequence, info), InfoBody(sequence, info));
    assert forall i :: 0 <= i < 18 ==> f[i] == body[i] by {
      assert f[..18] == body;
    }
    assert body[10..12] == Le16(info.sampleHz) && body[12..14] == Le16(info.capabilities);
    Part16(body, 10, Le16(info.sampleHz));
    Part16(body, 12, Le16(info.capabilities));
    Le16Numbers(info.sampleHz);
    Le16Numbers(info.capabilities);
  }

  /** The 8-byte info of the first firmware says nothing of faults, and is read as having none:
      no fault code, no identity, an unknown bus mode. */
  lemma ShortInfoDefaults(f: Bytes)
    requires |f| == 16 && DecodeFrame(f).Ok?
    ensures var frame := DecodeFrame(f).value;
            && frame.InfoFrame? && frame.sequence == f[5]
            && frame.info.firmwareVersion == Vec3(f[6], f[7], f[8]) && SensorNumber(frame.info.sensorKind) == f[9]
            && frame.info.sampleHz == Number16(f, 10) && frame.info.capabilities == Number16(f, 12)
            && frame.info.faultCode == 0 && frame.info.observedWhoAmI == 0
            && frame.info.spiMode == 255 && frame.info.reserved == 0
  {
  }

  /** Why a frame is refused, in the order of the checks. */
  lemma Refusals(b: Bytes)
    ensures DecodeFrame(b) == Err(IncompleteFrame) <==> |b| < 8
    ensures |b| >= 8 ==> (DecodeFrame(b) == Err(InvalidSync) <==> b[0] != 0xA5 || b[1] != 0x5A)
    ensures |b| >= 8 && b[0] == 0xA5 && b[1] == 0x5A && b[2] != 1 ==> DecodeFrame(b) == Err(InvalidVersion(b[2]))
    ensures Stamped(b) && b[3] != 1 && b[3] != 2 ==> DecodeFrame(b) == Err(UnknownFrameKind(b[3]))
    ensures Stamped(b) && (b[3] == 1 || b[3] == 2) && |b| != b[4] as int + 8 ==>
              DecodeFrame(b) == Err(InvalidLength(b[4] as int + 8, |b|))
  {
    hide SealIntact, SampleAt;
  }

  /** Sync and version are right. */
  predicate Stamped(b: Bytes) { |b| >= 8 && b[0] == 0xA5 && b[1] == 0x5A && b[2] == 1 }

  /** A frame whose length fits its header is refused for its checksum exactly when the word at
      its end is not that of all the bytes before; and only then for its payload's length. */
  lemma ChecksumRefusals(b: Bytes)
    requires Stamped(b) && (b[3] == 1 || b[3] == 2) && |b| == b[4] as int + 8
    ensures var (stored, crc) := (Number16(b, |b| - 2), Crc(b[..|b| - 2]));
            && (stored != crc ==> DecodeFrame(b) == Err(CrcMismatch(crc, stored)))
            && (stored == crc && b[3] == 1 && b[4] != 26 ==>
                  DecodeFrame(b) == Err(PayloadLengthMismatch(ImuSampleKind, b[4])))
            && (stored == crc && b[3] == 2 && b[4] != 8 && b[4] != 12 ==>
                  DecodeFrame(b) == Err(PayloadLengthMismatch(DeviceInfoKind, b[4])))
            && (stored == crc && b[3] == 2 && (b[4] == 8 || b[4] == 12) && 4 < b[9] < 255 ==>
                  DecodeFrame(b) == Err(UnknownSensorKind(b[9])))
  {
    hide Crc;
  }

  /** What the parser says of a header once its sixth byte is in. */
  lemma HeaderVerdicts(s: State, byte: u8)
    requires |s.held| == 5
    ensures var (h, r) := (s.held, Push(s, byte).1);
            && (h[2] != 1 ==> r == Err(InvalidVersion(h[2])))
            && (h[2] == 1 && h[3] != 1 && h[3] != 2 ==> r == Err(UnknownFrameKind(h[3])))
            && (h[2] == 1 && (h[3] == 1 || h[3] == 2) && h[4] > 26 ==> r == Err(FrameTooLong(h[4] as int + 8)))
            && (h[2] == 1 && h[3] == 1 && h[4] < 26 ==> r == Err(PayloadLengthMismatch(ImuSampleKind, h[4])))
            && (h[2] == 1 && h[3] == 2 && h[4] <= 26 && h[4] != 8 && h[4] != 12 ==>
                  r == Err(PayloadLengthMismatch(DeviceInfoKind, h[4])))
            && (h[2] == 1 && ((h[3] == 1 && h[4] == 26) || (h[3] == 2 && (h[4] == 8 || h[4] == 12))) ==> r == Ok(None))
  {
    hide DecodeFrame;
  }

  /** A slice is read up to the first push that returns something, and its result is that one's. */
  lemma {:induction false} SliceStopsAtFirst(s: State, bytes: Bytes)
    ensures var (k, outputs) := (Consumed(s, bytes), Run(s, bytes).1);
            && (forall i :: 0 <= i < |bytes| && i < k - 1 ==> outputs[i] == Ok(None))
            && (SliceResult(s, bytes) != Ok(None) ==> 0 < k && outputs[k - 1] == SliceResult(s, bytes))
            && (SliceResult(s, bytes) == Ok(None) ==> k == |bytes| && forall i :: 0 <= i < k ==> outputs[i] == Ok(None))
    decreases |bytes|
  {
    hide Push;
    if bytes != [] {
      SliceStopsAtFirst(Push(s, bytes[0]).0, bytes[1..]);
    }
  }

  // ------------------------------------------------------------------- the checksum's value

  /** A byte on top of the register. */
  function OnTop(w: Word, x: seq<bool>): Word
    requires |x| == 8
  {
    Word(w.a != x[0], w.b != x[1], w.c != x[2], w.d != x[3], w.e != x[4], w.f != x[5], w.g != x[6], w.h != x[7],
         w.i, w.j, w.k, w.l, w.m, w.n, w.o, w.p)
  }

  /** A byte on top of the register, and its eight turns. */
  function ByteTurned(w: Word, x: seq<bool>): Word
    requires |x| == 8
  {
    FourTurns(FourTurns(OnTop(w, x)))
  }

  lemma ByteFed(r: Register, b: u8)
    ensures WordOf(StepN(Plus(r, Pad(BitsOf(b, 8))), 8)) == ByteTurned(WordOf(r), BitsOf(b, 8))
  {
    hide StepN, FourTurns, WordOf, BitsOf, OnTop, Plus, Pad;
    var p := Plus(r, Pad(BitsOf(b, 8)));
    PaddedPlus(r, BitsOf(b, 8));
    StepNAppend(p, 4, 4);
    FourSteps(p);
    FourSteps(StepN(p, 4));
  }

  lemma PaddedPlus(r: Register, x: seq<bool>)
    requires |x| == 8
    ensures WordOf(Plus(r, Pad(x))) == OnTop(WordOf(r), x)
  {
  }

  const W_FFFF := Word(true, true, true, true, true, true, true, true,
                       true, true, true, true, true, true, true, true)
  const W_C782 := Word(true, true, false, false, false, true, true, true,
                       true, false, false, false, false, false, true, false)

  lemma DigitOne()
    ensures BitsOf(0x31, 8) == [false, false, true, true, false, false, false, true]
  {
    hide BitsOf;
    NoBitsOf(0);
    FourBits(0x3, 0);
    FourBits(0x31, 4);
  }

  lemma DigitTurned()
    ensures ByteTurned(W_FFFF, [false, false, true, true, false, false, false, true]) == W_C782
  {
  }

  lemma RegisterC782()
    ensures WordOf(RegisterOf(0xC782)) == W_C782 && WordOf(ONES) == W_FFFF
  {
    hide BitsOf;
    NoBitsOf(0);
    FourBits(0xC, 0);
    FourBits(0xC7, 4);
    FourBits(0xC78, 8);
    FourBits(0xC782, 12);
  }

  lemma SameWord(x: Register, y: Register)
    requires WordOf(x) == WordOf(y)
    ensures x == y
  {
  }

  /** Known checksums: 0xFFFF of nothing, and 0xC782 of the one character `1`. Start value,
      generator, width and bit order all show in them. */
  lemma KnownChecksums()
    ensures Crc([]) == 0xFFFF && Crc([0x31]) == 0xC782
  {
    hide Feed, Bits, BitsOf, WordOf, ByteTurned, FourTurns, W_FFFF, W_C782, StepN, Pad, Plus;
    NoBits();
    OnesIsFFFF();
    NumberOfRegister(0xFFFF);
    var one: Bytes := [0x31];
    assert one[..0] == [] && one[..1] == one;
    AbsorbByte(one, 0);
    ByteFed(ONES, 0x31);
    DigitOne();
    DigitTurned();
    RegisterC782();
    SameWord(Feed(ONES, Bits(one)), RegisterOf(0xC782));
    NumberOfRegister(0xC782);
  }
}
