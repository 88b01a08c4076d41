/** Frames of the IMU link: layout and the batch decoder, as functions on byte strings. */
module ImuFrame {
  import opened Results
  import opened Words
  import opened Crc16

  const SYNC_0: u8 := 0xA5
  const SYNC_1: u8 := 0x5A
  const PROTOCOL_VERSION: u8 := 1
  const HEADER_LEN := 6
  const CRC_LEN := 2
  const DEVICE_INFO_PAYLOAD_LEN_V1 := 8
  const DEVICE_INFO_PAYLOAD_LEN := 12
  const IMU_SAMPLE_PAYLOAD_LEN := 26
  const MAX_FRAME_LEN := HEADER_LEN + IMU_SAMPLE_PAYLOAD_LEN + CRC_LEN
  const SENSOR_FAULT_NONE: u8 := 0
  const SPI_MODE_UNKNOWN: u8 := 0xFF

  datatype FrameKind = ImuSampleKind | DeviceInfoKind

  datatype SensorKind = Unknown | Mock | Mpu9250 | Mpu6500 | Mpu6050 | Faulted

  datatype Vec3<T> = Vec3(x: T, y: T, z: T) {
    function At(i: nat): T
      requires i < 3
    {
      if i == 0 then x else if i == 1 then y else z
    }
  }

  datatype DeviceInfo = DeviceInfo(
    firmwareVersion: Vec3<u8>,
    sensorKind: SensorKind,
    sampleHz: u16,
    capabilities: u16,
    faultCode: u8,
    observedWhoAmI: u8,
    spiMode: u8,
    reserved: u8)

  datatype ImuSample = ImuSample(
    timestampUs: u32,
    accelMg: Vec3<i16>,
    gyroMdps: Vec3<i32>,
    temperatureCentiC: i16,
    status: u16)

  datatype Frame =
    | InfoFrame(sequence: u8, info: DeviceInfo)
    | SampleFrame(sequence: u8, sample: ImuSample)

  datatype DecodeError =
    | IncompleteFrame
    | InvalidSync
    | InvalidVersion(version: u8)
    | UnknownFrameKind(code: u8)
    | UnknownSensorKind(code: u8)
    | InvalidLength(expected: nat, actual: nat)
    | PayloadLengthMismatch(kind: FrameKind, length: nat)
    | CrcMismatch(expectedCrc: u16, actualCrc: u16)
    | FrameTooLong(frameLength: nat)

  datatype EncodeError = OutputTooSmall

  type Decoded = Result<Frame, DecodeError>

  function KindCode(kind: FrameKind): u8 {
    match kind
    case ImuSampleKind => 1
    case DeviceInfoKind => 2
  }

  function KindFrom(code: u8): Result<FrameKind, DecodeError> {
    if code == 1 then Ok(ImuSampleKind)
    else if code == 2 then Ok(DeviceInfoKind)
    else Err(UnknownFrameKind(code))
  }

  function SensorCode(sensor: SensorKind): u8 {
    match sensor
    case Unknown => 0
    case Mock => 1
    case Mpu9250 => 2
    case Mpu6500 => 3
    case Mpu6050 => 4
    case Faulted => 255
  }

  function SensorFrom(code: u8): Result<SensorKind, DecodeError> {
    if code == 0 then Ok(Unknown)
    else if code == 1 then Ok(Mock)
    else if code == 2 then Ok(Mpu9250)
    else if code == 3 then Ok(Mpu6500)
    else if code == 4 then Ok(Mpu6050)
    else if code == 255 then Ok(Faulted)
    else Err(UnknownSensorKind(code))
  }

  function FrameLen(payloadLen: nat): nat {
    HEADER_LEN + payloadLen + CRC_LEN
  }

  predicate ValidPayloadLen(kind: FrameKind, payloadLen: nat) {
    match kind
    case DeviceInfoKind =>
      payloadLen == DEVICE_INFO_PAYLOAD_LEN_V1 || payloadLen == DEVICE_INFO_PAYLOAD_LEN
    case ImuSampleKind =>
      payloadLen == IMU_SAMPLE_PAYLOAD_LEN
  }

  // ------------------------------------------------------------------------- the layouts

  function Header(kind: FrameKind, payloadLen: u8, sequence: u8): (b: Bytes)
    ensures |b| == HEADER_LEN
  {
    [SYNC_0, SYNC_1, PROTOCOL_VERSION, KindCode(kind), payloadLen, sequence]
  }

  function AccelBytes(v: Vec3<i16>): (b: Bytes)
    ensures |b| == 6
  {
    Le16(Unsigned16(v.x)) + Le16(Unsigned16(v.y)) + Le16(Unsigned16(v.z))
  }

  function GyroBytes(v: Vec3<i32>): (b: Bytes)
    ensures |b| == 12
  {
    Le32(Unsigned32(v.x)) + Le32(Unsigned32(v.y)) + Le32(Unsigned32(v.z))
  }

  function SampleBody(sequence: u8, s: ImuSample): (b: Bytes)
    ensures |b| == HEADER_LEN + IMU_SAMPLE_PAYLOAD_LEN
  {
    Header(ImuSampleKind, 26, sequence) + Le32(s.timestampUs) + AccelBytes(s.accelMg)
    + GyroBytes(s.gyroMdps) + Le16(Unsigned16(s.temperatureCentiC)) + Le16(s.status)
  }

  function InfoBody(sequence: u8, info: DeviceInfo): (b: Bytes)
    ensures |b| == HEADER_LEN + DEVICE_INFO_PAYLOAD_LEN
  {
    Header(DeviceInfoKind, 12, sequence)
    + [info.firmwareVersion.x, info.firmwareVersion.y, info.firmwareVersion.z,
       SensorCode(info.sensorKind)]
    + Le16(info.sampleHz) + Le16(info.capabilities)
    + [info.faultCode, info.observedWhoAmI, info.spiMode, info.reserved]
  }

  /** A body followed by its checksum. */
  function Sealed(body: Bytes): Bytes {
    body + Le16(Crc(body))
  }

  function EncodeSample(sequence: u8, sample: ImuSample): Bytes {
    Sealed(SampleBody(sequence, sample))
  }

  function EncodeInfo(sequence: u8, info: DeviceInfo): Bytes {
    Sealed(InfoBody(sequence, info))
  }

  // -------------------------------------------------------------------------- the decoder

  function I16At(b: Bytes, i: nat): i16
    requires i + 2 <= |b|
  {
    Signed16(U16At(b, i))
  }

  function I32At(b: Bytes, i: nat): i32
    requires i + 4 <= |b|
  {
    Signed32(U32At(b, i))
  }

  function AccelAt(b: Bytes, i: nat): Vec3<i16>
    requires i + 6 <= |b|
  {
    Vec3(I16At(b, i), I16At(b, i + 2), I16At(b, i + 4))
  }

  function GyroAt(b: Bytes, i: nat): Vec3<i32>
    requires i + 12 <= |b|
  {
    Vec3(I32At(b, i), I32At(b, i + 4), I32At(b, i + 8))
  }

  function SampleAt(b: Bytes): ImuSample
    requires |b| >= HEADER_LEN + IMU_SAMPLE_PAYLOAD_LEN
  {
    ImuSample(U32At(b, 6), AccelAt(b, 10), GyroAt(b, 16), I16At(b, 28), U16At(b, 30))
  }

  /** The optional diagnostics: present in the 12-byte payload, defaulted in the 8-byte one. */
  function PayloadOr(b: Bytes, payloadEnd: nat, i: nat, default: u8): u8
    requires payloadEnd <= |b|
  {
    if HEADER_LEN + i < payloadEnd then b[HEADER_LEN + i] else default
  }

  function InfoAt(b: Bytes, payloadEnd: nat): Result<DeviceInfo, DecodeError>
    requires HEADER_LEN + DEVICE_INFO_PAYLOAD_LEN_V1 <= payloadEnd <= |b|
  {
    match SensorFrom(b[9])
    case Err(e) => Err(e)
    case Ok(sensor) =>
      Ok(DeviceInfo(Vec3(b[6], b[7], b[8]), sensor, U16At(b, 10), U16At(b, 12),
                    PayloadOr(b, payloadEnd, 8, SENSOR_FAULT_NONE),
                    PayloadOr(b, payloadEnd, 9, 0),
                    PayloadOr(b, payloadEnd, 10, SPI_MODE_UNKNOWN),
                    PayloadOr(b, payloadEnd, 11, 0)))
  }

  function DecodePayload(kind: FrameKind, payloadLen: nat, bytes: Bytes): Decoded
    requires |bytes| == FrameLen(payloadLen)
  {
    if !ValidPayloadLen(kind, payloadLen) then Err(PayloadLengthMismatch(kind, payloadLen))
    else if kind == ImuSampleKind then Ok(SampleFrame(bytes[5], SampleAt(bytes)))
    else match InfoAt(bytes, |bytes| - CRC_LEN)
         case Ok(info) => Ok(InfoFrame(bytes[5], info))
         case Err(e) => Err(e)
  }

  /** The bytes the checksum covers, and the checksum as stored. */
  function Covered(bytes: Bytes): Bytes
    requires |bytes| >= CRC_LEN
  {
    bytes[..|bytes| - CRC_LEN]
  }

  function Stored(bytes: Bytes): u16
    requires |bytes| >= CRC_LEN
  {
    U16At(bytes, |bytes| - CRC_LEN)
  }

  predicate SealIntact(bytes: Bytes)
    requires |bytes| >= CRC_LEN
  {
    Stored(bytes) == Crc(Covered(bytes))
  }

  function DecodeFrame(bytes: Bytes): Decoded {
    if |bytes| < HEADER_LEN + CRC_LEN then Err(IncompleteFrame)
    else if bytes[0] != SYNC_0 || bytes[1] != SYNC_1 then Err(InvalidSync)
    else if bytes[2] != PROTOCOL_VERSION then Err(InvalidVersion(bytes[2]))
    else match KindFrom(bytes[3])
         case Err(e) => Err(e)
         case Ok(kind) =>
           if |bytes| != FrameLen(bytes[4]) then
             Err(InvalidLength(FrameLen(bytes[4]), |bytes|))
           else if !SealIntact(bytes) then
             Err(CrcMismatch(Crc(Covered(bytes)), Stored(bytes)))
           else
             DecodePayload(kind, bytes[4], bytes)
  }

  // ------------------------------------------------------------------------- round trips

  lemma SealedIntact(body: Bytes)
    ensures SealIntact(Sealed(body)) && Covered(Sealed(body)) == body
  {
    assert Sealed(body)[..|body|] == body;
    Le16RoundTrip(Crc(body));
  }

  lemma IntactIsSealed(bytes: Bytes)
    requires |bytes| >= 2 && SealIntact(bytes)
    ensures bytes == Sealed(Covered(bytes))
  {
    U16Bytes(bytes, |bytes| - 2);
    assert bytes == bytes[..|bytes| - 2] + bytes[|bytes| - 2..];
  }

  /** A sealed body with a good header gets as far as its payload. */
  lemma DecodeSealed(body: Bytes, kind: FrameKind)
    requires |body| >= HEADER_LEN
    requires body[0] == SYNC_0 && body[1] == SYNC_1 && body[2] == PROTOCOL_VERSION
    requires body[3] == KindCode(kind) && body[4] == |body| - HEADER_LEN
    ensures DecodeFrame(Sealed(body)) == DecodePayload(kind, |body| - HEADER_LEN, Sealed(body))
  {
    SealedIntact(body);
  }

  lemma U16Found(b: Bytes, i: nat, v: u16)
    requires i + 2 <= |b| && b[i..i + 2] == Le16(v)
    ensures U16At(b, i) == v
  {
    Le16RoundTrip(v);
    assert b[i] == b[i..i + 2][0] && b[i + 1] == b[i..i + 2][1];
  }

  lemma U32Found(b: Bytes, i: nat, v: u32)
    requires i + 4 <= |b| && b[i..i + 4] == Le32(v)
    ensures U32At(b, i) == v
  {
    Le32RoundTrip(v);
    var w := b[i..i + 4];
    assert b[i] == w[0] && b[i + 1] == w[1] && b[i + 2] == w[2] && b[i + 3] == w[3];
  }

  lemma ThirdsFound(b: Bytes, i: nat, n: nat, p: Bytes, q: Bytes, r: Bytes)
    requires |p| == |q| == |r| == n
    requires i + 3 * n <= |b| && b[i..i + 3 * n] == p + q + r
    ensures b[i..i + n] == p
    ensures b[i + n..i + 2 * n] == q
    ensures b[i + 2 * n..i + 3 * n] == r
  {
    var w := b[i..i + 3 * n];
    forall k | 0 <= k < n
      ensures b[i + k] == p[k] && b[i + n + k] == q[k] && b[i + 2 * n + k] == r[k]
    {
      assert w[k] == p[k] && w[n + k] == q[k] && w[2 * n + k] == r[k];
    }
  }

  lemma AccelFound(b: Bytes, i: nat, v: Vec3<i16>)
    requires i + 6 <= |b| && b[i..i + 6] == AccelBytes(v)
    ensures AccelAt(b, i) == v
  {
    var x, y, z := Unsigned16(v.x), Unsigned16(v.y), Unsigned16(v.z);
    ThirdsFound(b, i, 2, Le16(x), Le16(y), Le16(z));
    U16Found(b, i, x);
    U16Found(b, i + 2, y);
    U16Found(b, i + 4, z);
  }

  lemma GyroFound(b: Bytes, i: nat, v: Vec3<i32>)
    requires i + 12 <= |b| && b[i..i + 12] == GyroBytes(v)
    ensures GyroAt(b, i) == v
  {
    var x, y, z := Unsigned32(v.x), Unsigned32(v.y), Unsigned32(v.z);
    ThirdsFound(b, i, 4, Le32(x), Le32(y), Le32(z));
    U32Found(b, i, x);
    U32Found(b, i + 4, y);
    U32Found(b, i + 8, z);
  }

  lemma SampleLayout(sequence: u8, s: ImuSample, rest: Bytes)
    ensures SampleAt(SampleBody(sequence, s) + rest) == s
  {
    var b := SampleBody(sequence, s) + rest;
    assert b[6..10] == Le32(s.timestampUs);
    assert b[10..16] == AccelBytes(s.accelMg);
    assert b[16..28] == GyroBytes(s.gyroMdps);
    assert b[28..30] == Le16(Unsigned16(s.temperatureCentiC));
    assert b[30..32] == Le16(s.status);
    U32Found(b, 6, s.timestampUs);
    AccelFound(b, 10, s.accelMg);
    GyroFound(b, 16, s.gyroMdps);
    U16Found(b, 28, Unsigned16(s.temperatureCentiC));
    U16Found(b, 30, s.status);
  }

  lemma AccelBytesAt(b: Bytes, i: nat)
    requires i + 6 <= |b|
    ensures AccelBytes(AccelAt(b, i)) == b[i..i + 6]
  {
    U16Bytes(b, i);
    U16Bytes(b, i + 2);
    U16Bytes(b, i + 4);
    assert b[i..i + 6] == b[i..i + 2] + b[i + 2..i + 4] + b[i + 4..i + 6];
  }

  lemma GyroBytesAt(b: Bytes, i: nat)
    requires i + 12 <= |b|
    ensures GyroBytes(GyroAt(b, i)) == b[i..i + 12]
  {
    U32Bytes(b, i);
    U32Bytes(b, i + 4);
    U32Bytes(b, i + 8);
    assert b[i..i + 12] == b[i..i + 4] + b[i + 4..i + 8] + b[i + 8..i + 12];
  }

  lemma SampleHeader(sequence: u8, s: ImuSample)
    ensures SampleBody(sequence, s)[..6] == Header(ImuSampleKind, 26, sequence)
  {
  }

  /** Decoding what was encoded gives the sample back. */
  lemma SampleRoundTrip(sequence: u8, s: ImuSample)
    ensures DecodeFrame(EncodeSample(sequence, s)) == Ok(SampleFrame(sequence, s))
  {
    var body := SampleBody(sequence, s);
    SampleHeader(sequence, s);
    assert forall i :: 0 <= i < 6 ==> body[i] == body[..6][i];
    DecodeSealed(body, ImuSampleKind);
    SampleLayout(sequence, s, Le16(Crc(body)));
  }

  lemma SampleBodyAt(b: Bytes)
    requires |b| >= 32
    requires b[..6] == Header(ImuSampleKind, 26, b[5])
    ensures SampleBody(b[5], SampleAt(b)) == b[..32]
  {
    U32Bytes(b, 6);
    AccelBytesAt(b, 10);
    GyroBytesAt(b, 16);
    U16Bytes(b, 28);
    U16Bytes(b, 30);
    assert b[..32] == b[..6] + b[6..10] + b[10..16] + b[16..28] + b[28..30] + b[30..32];
  }

  lemma AcceptedIsIntact(bytes: Bytes)
    requires DecodeFrame(bytes).Ok?
    ensures |bytes| >= 8 && SealIntact(bytes)
  {
  }

  lemma AcceptedSample(bytes: Bytes)
    requires DecodeFrame(bytes).Ok? && DecodeFrame(bytes).value.SampleFrame?
    ensures |bytes| == 34 && bytes[..6] == Header(ImuSampleKind, 26, bytes[5])
    ensures DecodeFrame(bytes).value == SampleFrame(bytes[5], SampleAt(bytes))
  {
  }

  lemma AcceptedInfo(bytes: Bytes)
    requires DecodeFrame(bytes).Ok? && DecodeFrame(bytes).value.InfoFrame?
    ensures |bytes| == 20 || |bytes| == 16
    ensures bytes[..6] == Header(DeviceInfoKind, if |bytes| == 20 then 12 else 8, bytes[5])
    ensures InfoAt(bytes, |bytes| - 2).Ok?
    ensures DecodeFrame(bytes).value == InfoFrame(bytes[5], InfoAt(bytes, |bytes| - 2).value)
  {
  }

  /** Encoding what was decoded gives the accepted sample frame back, byte for byte. */
  lemma SampleRoundTripBack(bytes: Bytes)
    requires DecodeFrame(bytes).Ok? && DecodeFrame(bytes).value.SampleFrame?
    ensures var f := DecodeFrame(bytes).value; bytes == EncodeSample(f.sequence, f.sample)
  {
    AcceptedSample(bytes);
    AcceptedIsIntact(bytes);
    IntactIsSealed(bytes);
    SampleBodyAt(bytes);
  }

  lemma InfoLayout(sequence: u8, info: DeviceInfo, rest: Bytes)
    ensures InfoAt(InfoBody(sequence, info) + rest, 18) == Ok(info)
  {
    Le16RoundTrip(info.sampleHz);
    Le16RoundTrip(info.capabilities);
  }

  /** Decoding what was encoded gives the device info back. */
  lemma InfoRoundTrip(sequence: u8, info: DeviceInfo)
    ensures DecodeFrame(EncodeInfo(sequence, info)) == Ok(InfoFrame(sequence, info))
  {
    var body := InfoBody(sequence, info);
    DecodeSealed(body, DeviceInfoKind);
    InfoLayout(sequence, info, Le16(Crc(body)));
  }

  /** The long body of the info found in either layout: the short one lacks the diagnostics,
      which then take their documented defaults. */
  lemma InfoBodyAt(b: Bytes, payloadEnd: nat)
    requires payloadEnd == 14 || payloadEnd == 18
    requires payloadEnd <= |b| && InfoAt(b, payloadEnd).Ok?
    ensures InfoBody(b[5], InfoAt(b, payloadEnd).value) ==
      Header(DeviceInfoKind, 12, b[5]) + b[6..14]
      + (if payloadEnd == 18 then b[14..18] else [SENSOR_FAULT_NONE, 0, SPI_MODE_UNKNOWN, 0])
  {
    U16Bytes(b, 10);
    U16Bytes(b, 12);
    assert b[6..14] == b[6..10] + b[10..12] + b[12..14];
  }

  /** Encoding what was decoded gives a 12-byte info frame back, byte for byte. */
  lemma InfoRoundTripBack(bytes: Bytes)
    requires DecodeFrame(bytes).Ok? && DecodeFrame(bytes).value.InfoFrame?
    requires |bytes| == 20
    ensures var f := DecodeFrame(bytes).value; bytes == EncodeInfo(f.sequence, f.info)
  {
    AcceptedInfo(bytes);
    AcceptedIsIntact(bytes);
    IntactIsSealed(bytes);
    InfoBodyAt(bytes, 18);
    assert bytes[..18] == bytes[..6] + bytes[6..14] + bytes[14..18];
  }

  /** A short info frame decodes to what the long one with default diagnostics decodes to. */
  lemma ShortInfoLikeLong(bytes: Bytes)
    requires DecodeFrame(bytes).Ok? && DecodeFrame(bytes).value.InfoFrame?
    requires |bytes| == 16
    ensures DecodeFrame(Sealed(Header(DeviceInfoKind, 12, bytes[5]) + bytes[6..14]
                               + [SENSOR_FAULT_NONE, 0, SPI_MODE_UNKNOWN, 0]))
         == DecodeFrame(bytes)
  {
    AcceptedInfo(bytes);
    InfoBodyAt(bytes, 14);
    InfoRoundTrip(bytes[5], InfoAt(bytes, 14).value);
  }
}
