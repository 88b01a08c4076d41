/** The encoders, which fill a caller's buffer through a moving cursor, and the decoder,
    which reads through one, each proved against the layouts of `ImuFrame`. */
module ImuCodec {
  import opened Results
  import opened Words
  import opened Crc16
  import opened ImuFrame

  // ----------------------------------------------------------------------------- writing

  /** `copy_from_slice` at the cursor. */
  method Write(out: array<u8>, cursor: nat, bytes: Bytes) returns (next: nat)
    requires cursor + |bytes| <= out.Length
    modifies out
    ensures next == cursor + |bytes|
    ensures out[..next] == old(out[..cursor]) + bytes
    ensures forall k :: next <= k < out.Length ==> out[k] == old(out[k])
  {
    forall k | 0 <= k < |bytes| {
      out[cursor + k] := bytes[k];
    }
    next := cursor + |bytes|;
  }

  method WriteU16(out: array<u8>, cursor: nat, value: u16) returns (next: nat)
    requires cursor + 2 <= out.Length
    modifies out
    ensures next == cursor + 2
    ensures out[..next] == old(out[..cursor]) + Le16(value)
    ensures forall k :: next <= k < out.Length ==> out[k] == old(out[k])
  {
    next := Write(out, cursor, Le16(value));
  }

  method WriteU32(out: array<u8>, cursor: nat, value: u32) returns (next: nat)
    requires cursor + 4 <= out.Length
    modifies out
    ensures next == cursor + 4
    ensures out[..next] == old(out[..cursor]) + Le32(value)
    ensures forall k :: next <= k < out.Length ==> out[k] == old(out[k])
  {
    next := Write(out, cursor, Le32(value));
  }

  method WriteHeader(out: array<u8>, kind: FrameKind, payloadLen: u8, sequence: u8)
    requires HEADER_LEN <= out.Length
    modifies out
    ensures out[..HEADER_LEN] == Header(kind, payloadLen, sequence)
    ensures forall k :: HEADER_LEN <= k < out.Length ==> out[k] == old(out[k])
  {
    out[0] := SYNC_0;
    out[1] := SYNC_1;
    out[2] := PROTOCOL_VERSION;
    out[3] := KindCode(kind);
    out[4] := payloadLen;
    out[5] := sequence;
  }

  method WriteSeal(out: array<u8>, cursor: nat)
    requires cursor + CRC_LEN <= out.Length
    modifies out
    ensures out[..cursor + CRC_LEN] == Sealed(old(out[..cursor]))
    ensures forall k :: cursor + CRC_LEN <= k < out.Length ==> out[k] == old(out[k])
  {
    var crc := ComputeCrc(out[..cursor]);
    var next := WriteU16(out, cursor, crc);
  }

  method WriteAccel(out: array<u8>, cursor: nat, v: Vec3<i16>) returns (next: nat)
    requires cursor + 6 <= out.Length
    modifies out
    ensures next == cursor + 6
    ensures out[..next] == old(out[..cursor]) + AccelBytes(v)
    ensures forall k :: next <= k < out.Length ==> out[k] == old(out[k])
  {
    next := cursor;
    for i := 0 to 3
      invariant next == cursor + 2 * i
      invariant out[..next] == old(out[..cursor]) + AccelBytes(v)[..2 * i]
      invariant forall k :: next <= k < out.Length ==> out[k] == old(out[k])
    {
      assert AccelBytes(v)[..2 * i + 2] == AccelBytes(v)[..2 * i] + Le16(Unsigned16(v.At(i)));
      next := WriteU16(out, next, Unsigned16(v.At(i)));
    }
  }

  method WriteGyro(out: array<u8>, cursor: nat, v: Vec3<i32>) returns (next: nat)
    requires cursor + 12 <= out.Length
    modifies out
    ensures next == cursor + 12
    ensures out[..next] == old(out[..cursor]) + GyroBytes(v)
    ensures forall k :: next <= k < out.Length ==> out[k] == old(out[k])
  {
    next := cursor;
    for i := 0 to 3
      invariant next == cursor + 4 * i
      invariant out[..next] == old(out[..cursor]) + GyroBytes(v)[..4 * i]
      invariant forall k :: next <= k < out.Length ==> out[k] == old(out[k])
    {
      assert GyroBytes(v)[..4 * i + 4] == GyroBytes(v)[..4 * i] + Le32(Unsigned32(v.At(i)));
      next := WriteU32(out, next, Unsigned32(v.At(i)));
    }
  }

  method EncodeSampleFrame(sequence: u8, sample: ImuSample, out: array<u8>)
    returns (r: Result<nat, EncodeError>)
    modifies out
    ensures out.Length < 34 ==> r == Err(OutputTooSmall) && out[..] == old(out[..])
    ensures out.Length >= 34 ==>
      r == Ok(34) && out[..34] == EncodeSample(sequence, sample)
      && forall k :: 34 <= k < out.Length ==> out[k] == old(out[k])
  {
    var frameLen := FrameLen(IMU_SAMPLE_PAYLOAD_LEN);
    if out.Length < frameLen {
      return Err(OutputTooSmall);
    }
    WriteHeader(out, ImuSampleKind, 26, sequence);
    var cursor := HEADER_LEN;
    cursor := WriteU32(out, cursor, sample.timestampUs);
    cursor := WriteAccel(out, cursor, sample.accelMg);
    cursor := WriteGyro(out, cursor, sample.gyroMdps);
    cursor := WriteU16(out, cursor, Unsigned16(sample.temperatureCentiC));
    cursor := WriteU16(out, cursor, sample.status);
    WriteSeal(out, cursor);
    r := Ok(frameLen);
  }

  method EncodeDeviceInfoFrame(sequence: u8, info: DeviceInfo, out: array<u8>)
    returns (r: Result<nat, EncodeError>)
    modifies out
    ensures out.Length < 20 ==> r == Err(OutputTooSmall) && out[..] == old(out[..])
    ensures out.Length >= 20 ==>
      r == Ok(20) && out[..20] == EncodeInfo(sequence, info)
      && forall k :: 20 <= k < out.Length ==> out[k] == old(out[k])
  {
    var frameLen := FrameLen(DEVICE_INFO_PAYLOAD_LEN);
    if out.Length < frameLen {
      return Err(OutputTooSmall);
    }
    WriteHeader(out, DeviceInfoKind, 12, sequence);
    var cursor := HEADER_LEN;
    var v := info.firmwareVersion;
    cursor := Write(out, cursor, [v.x, v.y, v.z, SensorCode(info.sensorKind)]);
    cursor := WriteU16(out, cursor, info.sampleHz);
    cursor := WriteU16(out, cursor, info.capabilities);
    cursor := Write(out, cursor, [info.faultCode, info.observedWhoAmI, info.spiMode, info.reserved]);
    WriteSeal(out, cursor);
    r := Ok(frameLen);
  }

  // ----------------------------------------------------------------------------- reading

  method ReadU16(bytes: Bytes, cursor: nat) returns (value: u16, next: nat)
    requires cursor + 2 <= |bytes|
    ensures value == U16At(bytes, cursor) && next == cursor + 2
  {
    value := Word16(bytes[cursor], bytes[cursor + 1]);
    next := cursor + 2;
  }

  method ReadU32(bytes: Bytes, cursor: nat) returns (value: u32, next: nat)
    requires cursor + 4 <= |bytes|
    ensures value == U32At(bytes, cursor) && next == cursor + 4
  {
    value := Word32(bytes[cursor], bytes[cursor + 1], bytes[cursor + 2], bytes[cursor + 3]);
    next := cursor + 4;
  }

  /** The cursor walk over a sample's payload finds every field at its documented offset. */
  method ReadSample(payload: Bytes) returns (sample: ImuSample)
    requires |payload| == IMU_SAMPLE_PAYLOAD_LEN
    ensures forall prefix: Bytes | |prefix| == HEADER_LEN :: sample == SampleAt(prefix + payload)
  {
    var cursor := 0;
    var timestampUs, accel, gyro := 0, [0, 0, 0], [0, 0, 0];
    timestampUs, cursor := ReadU32(payload, cursor);
    for i := 0 to 3
      invariant cursor == 4 + 2 * i && |accel| == 3
      invariant forall k :: 0 <= k < i ==> accel[k] == I16At(payload, 4 + 2 * k)
    {
      var raw;
      raw, cursor := ReadU16(payload, cursor);
      accel := accel[i := Signed16(raw)];
    }
    for i := 0 to 3
      invariant cursor == 10 + 4 * i && |gyro| == 3
      invariant forall k :: 0 <= k < i ==> gyro[k] == I32At(payload, 10 + 4 * k)
    {
      var raw;
      raw, cursor := ReadU32(payload, cursor);
      gyro := gyro[i := Signed32(raw)];
    }
    var temperature, status;
    temperature, cursor := ReadU16(payload, cursor);
    status, cursor := ReadU16(payload, cursor);
    sample := ImuSample(timestampUs, Vec3(accel[0], accel[1], accel[2]),
                        Vec3(gyro[0], gyro[1], gyro[2]), Signed16(temperature), status);
    forall prefix: Bytes | |prefix| == HEADER_LEN
      ensures sample == SampleAt(prefix + payload)
    {
      assert forall i :: 0 <= i < 26 ==> (prefix + payload)[6 + i] == payload[i];
    }
  }

  /** The decoder of the source, step by step. */
  method Decode(bytes: Bytes) returns (r: Decoded)
    ensures r == DecodeFrame(bytes)
  {
    if |bytes| < HEADER_LEN + CRC_LEN {
      return Err(IncompleteFrame);
    }
    if bytes[0] != SYNC_0 || bytes[1] != SYNC_1 {
      return Err(InvalidSync);
    }
    if bytes[2] != PROTOCOL_VERSION {
      return Err(InvalidVersion(bytes[2]));
    }
    var kind := KindFrom(bytes[3]);
    if kind.Err? {
      return Err(kind.error);
    }
    var expectedLen := FrameLen(bytes[4]);
    if |bytes| != expectedLen {
      return Err(InvalidLength(expectedLen, |bytes|));
    }
    var actualCrc := Word16(bytes[|bytes| - 2], bytes[|bytes| - 1]);
    var expectedCrc := ComputeCrc(bytes[..|bytes| - CRC_LEN]);
    if actualCrc != expectedCrc {
      return Err(CrcMismatch(expectedCrc, actualCrc));
    }
    if !ValidPayloadLen(kind.value, bytes[4]) {
      return Err(PayloadLengthMismatch(kind.value, bytes[4]));
    }
    match kind.value
    case ImuSampleKind =>
      var sample := ReadSample(bytes[HEADER_LEN..|bytes| - CRC_LEN]);
      SampleIgnoresRest(bytes);
      r := Ok(SampleFrame(bytes[5], sample));
    case DeviceInfoKind =>
      var info := InfoAt(bytes, |bytes| - CRC_LEN);
      r := if info.Ok? then Ok(InfoFrame(bytes[5], info.value)) else Err(info.error);
  }

  lemma SampleIgnoresRest(bytes: Bytes)
    requires |bytes| == 34
    ensures SampleAt(bytes[..6] + bytes[6..32]) == SampleAt(bytes)
  {
    assert bytes[..6] + bytes[6..32] == bytes[..32];
  }
}
