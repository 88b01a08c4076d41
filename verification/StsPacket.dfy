/** Feetech STS packets: instruction framing, status parsing and the sync write. */
module StsPacket {
  import opened Results
  import opened Words

  const SYNC_WRITE: u8 := 0x83
  const BROADCAST: u8 := 0xFE
  const GOAL_POSITION_ADDRESS: u8 := 42
  const GOAL_POSITION_WIDTH: u8 := 2

  datatype StatusPacket = StatusPacket(status: u8, params: Bytes)

  datatype ParseError = TooShort | InvalidHeader | IdMismatch | LengthMismatch | ChecksumMismatch

  function Sum(b: Bytes): nat
    decreases |b|
  {
    if b == [] then 0 else b[0] + Sum(b[1..])
  }

  /** The complement of the low byte of the sum. */
  function Checksum(id: u8, length: u8, instructionOrStatus: u8, params: Bytes): u8 {
    255 - (id + length + instructionOrStatus + Sum(params)) % 256
  }

  method CalculateChecksum(id: u8, length: u8, instructionOrStatus: u8, params: Bytes) returns (c: u8)
    ensures c == Checksum(id, length, instructionOrStatus, params)
  {
    var sum: nat := id + length + instructionOrStatus;
    for i := 0 to |params|
      invariant sum + Sum(params[i..]) == id + length + instructionOrStatus + Sum(params)
    {
      sum := sum + params[i];
    }
    c := 255 - sum % 256;
  }

  /** The length field is a byte, and wraps. */
  function LengthField(params: Bytes): u8 { (|params| + 2) % 256 }

  function PackInstruction(id: u8, instruction: u8, params: Bytes): (packet: Bytes)
    ensures |packet| == |params| + 6
  {
    [0xFF, 0xFF, id, LengthField(params), instruction] + params
    + [Checksum(id, LengthField(params), instruction, params)]
  }

  function ParseStatusPacket(expectedId: u8, data: Bytes): Result<StatusPacket, ParseError> {
    if |data| < 6 then Err(TooShort)
    else if data[0] != 0xFF || data[1] != 0xFF then Err(InvalidHeader)
    else if data[2] != expectedId then Err(IdMismatch)
    else if |data| != data[3] as int + 4 then Err(LengthMismatch)
    else
      var params := data[5..|data| - 1];
      if data[|data| - 1] != Checksum(expectedId, data[3], data[4], params) then Err(ChecksumMismatch)
      else Ok(StatusPacket(data[4], params))
  }

  // ------------------------------------------------------------------------ round trips

  lemma PackedParts(id: u8, instruction: u8, params: Bytes)
    ensures var packet := PackInstruction(id, instruction, params);
            && packet[0] == 0xFF && packet[1] == 0xFF && packet[2] == id
            && packet[3] == LengthField(params) && packet[4] == instruction
            && packet[5..|packet| - 1] == params
            && packet[|packet| - 1] == Checksum(id, LengthField(params), instruction, params)
  {
  }

  /** Parsing recovers id, instruction and parameters exactly up to 253 parameter bytes;
      beyond that the length field has wrapped and the packet is refused. */
  lemma ParsePacked(id: u8, instruction: u8, params: Bytes)
    ensures ParseStatusPacket(id, PackInstruction(id, instruction, params))
         == if |params| <= 253 then Ok(StatusPacket(instruction, params)) else Err(LengthMismatch)
  {
    PackedParts(id, instruction, params);
    hide PackInstruction, Checksum;
  }

  /** Whatever is accepted is a packed packet: parsing has no other inputs. */
  lemma AcceptedIsPacked(id: u8, data: Bytes)
    requires ParseStatusPacket(id, data).Ok?
    ensures var p := ParseStatusPacket(id, data).value;
            |p.params| <= 253 && data == PackInstruction(id, p.status, p.params)
  {
    var p := ParseStatusPacket(id, data).value;
    PackedParts(id, p.status, p.params);
    var packet := PackInstruction(id, p.status, p.params);
    forall k | 0 <= k < |data|
      ensures data[k] == packet[k]
    {
      if 5 <= k < |data| - 1 {
        assert data[k] == p.params[k - 5];
        assert packet[k] == packet[5..|packet| - 1][k - 5];
      }
    }
  }

  // -------------------------------------------------------------------------- detection

  lemma {:induction false} SumConcat(a: Bytes, b: Bytes)
    ensures Sum(a + b) == Sum(a) + Sum(b)
    decreases |a|
  {
    if a == [] {
      assert a + b == b;
    } else {
      assert (a + b)[1..] == a[1..] + b;
      SumConcat(a[1..], b);
    }
  }

  /** The sum after the header, and the condition the checksum puts on it. */
  lemma BodySum(data: Bytes)
    requires |data| >= 6
    ensures Sum(data[2..]) == data[2] + data[3] + data[4] + Sum(data[5..|data| - 1]) + data[|data| - 1]
  {
    var (n, params) := (|data|, data[5..|data| - 1]);
    assert data[2..] == [data[2], data[3], data[4]] + (params + [data[n - 1]]);
    SumConcat([data[2], data[3], data[4]], params + [data[n - 1]]);
    SumConcat(params, [data[n - 1]]);
    SumOfThree(data[2], data[3], data[4]);
    assert Sum([data[n - 1]]) == data[n - 1];
  }

  lemma SumOfThree(a: u8, b: u8, c: u8)
    ensures Sum([a, b, c]) == a + b + c
  {
    var one: Bytes, two: Bytes, three: Bytes := [c], [b, c], [a, b, c];
    assert one[1..] == [] && two[1..] == one && three[1..] == two;
    assert Sum(two) == b + Sum(one);
  }

  /** Header, id and length are right. */
  predicate Framed(id: u8, data: Bytes) {
    |data| >= 6 && data[0] == 0xFF && data[1] == 0xFF && data[2] == id && |data| == data[3] as int + 4
  }

  /** A packet is accepted exactly when it is framed and its bytes after the header add up to
      255 modulo 256. */
  lemma AcceptedIff(id: u8, data: Bytes)
    ensures ParseStatusPacket(id, data).Ok? <==> Framed(id, data) && Sum(data[2..]) % 256 == 255
  {
    if |data| >= 6 {
      BodySum(data);
    }
  }

  lemma {:induction false} SumUpdate(b: Bytes, k: nat, x: u8)
    requires k < |b|
    ensures Sum(b[k := x]) == Sum(b) - b[k] + x
    decreases |b|
  {
    if k > 0 {
      assert b[k := x][1..] == b[1..][k - 1 := x];
      SumUpdate(b[1..], k - 1, x);
    } else {
      assert b[k := x][1..] == b[1..];
    }
  }

  /** Changing any single byte of an accepted packet, to any other value, is detected. */
  lemma SingleByteDetected(id: u8, data: Bytes, k: nat, x: u8)
    requires ParseStatusPacket(id, data).Ok? && k < |data| && x != data[k]
    ensures ParseStatusPacket(id, data[k := x]).Err?
  {
    hide ParseStatusPacket, Sum;
    AcceptedIff(id, data);
    AcceptedIff(id, data[k := x]);
    if k >= 2 {
      assert data[k := x][2..] == data[2..][k - 2 := x];
      SumUpdate(data[2..], k - 2, x);
    }
  }

  /** What the checksum cannot see: two bytes of the body, changed by opposite amounts. */
  lemma OppositeChangesUndetected(id: u8, data: Bytes, j: nat, k: nat, x: u8, y: u8)
    requires ParseStatusPacket(id, data).Ok? && 4 <= j < k < |data|
    ensures ParseStatusPacket(id, data[j := x][k := y]).Ok? <==>
              (x - data[j] + y - data[k]) % 256 == 0
  {
    var damaged := data[j := x][k := y];
    AcceptedIff(id, data);
    AcceptedIff(id, damaged);
    hide ParseStatusPacket;
    assert damaged[2..] == data[2..][j - 2 := x][k - 2 := y];
    assert Framed(id, damaged);
    SumUpdate(data[2..], j - 2, x);
    SumUpdate(data[2..][j - 2 := x], k - 2, y);
    Residue(Sum(data[2..]), x - data[j] + y - data[k]);
  }

  lemma Residue(s: int, d: int)
    requires s % 256 == 255
    ensures (s + d) % 256 == 255 <==> d % 256 == 0
  {
  }

  // -------------------------------------------------------------------------- sync write

  datatype BusError = NotConfigured(servoId: u8) | WriteFailed

  /** The per-servo part of the sync write for the first `n` commands. */
  function CommandBytes(commands: seq<JointCommand>, n: nat): Bytes
    requires n <= |commands|
  {
    if n == 0 then []
    else CommandBytes(commands, n - 1) + [commands[n - 1].servoId] + Le16(commands[n - 1].positionTicks)
  }

  function SyncParams(commands: seq<JointCommand>): Bytes {
    [GOAL_POSITION_ADDRESS, GOAL_POSITION_WIDTH] + CommandBytes(commands, |commands|)
  }

  function SyncPacket(commands: seq<JointCommand>): Bytes {
    PackInstruction(BROADCAST, SYNC_WRITE, SyncParams(commands))
  }

  /** What the port makes of a write: all of it, or an error after some of its bytes. */
  datatype Port = Works | FailsAfter(taken: nat)

  function Taken(port: Port, packet: Bytes): (b: Bytes)
    ensures b <= packet
    ensures |b| == if port.FailsAfter? && port.taken < |packet| then port.taken else |packet|
  {
    match port
    case Works => packet
    case FailsAfter(n) => if n < |packet| then packet[..n] else packet
  }

  class StsBus {
    const servoIds: seq<u8>
    /** What the port has taken, write by write. */
    var sent: seq<Bytes>

    constructor (servoIds: seq<u8>)
      ensures this.servoIds == servoIds && sent == []
    {
      this.servoIds := servoIds;
      sent := [];
    }

    /** All commands are checked before anything is sent; without commands nothing is; else one
        packet of all commands is, of which a failing port may have taken a part. */
    method SyncWritePositions(commands: seq<JointCommand>, port: Port) returns (r: Result<(), BusError>)
      modifies this
      ensures r.Err? && r.error.NotConfigured? <==> exists k :: 0 <= k < |commands| && commands[k].servoId !in servoIds
      ensures r.Err? && r.error.NotConfigured? ==> sent == old(sent)
      ensures r.Err? && r.error.WriteFailed? ==>
                port.FailsAfter? && commands != [] && sent == old(sent) + [Taken(port, SyncPacket(commands))]
      ensures r.Ok? && commands == [] ==> sent == old(sent)
      ensures r.Ok? && commands != [] ==> port.Works? && sent == old(sent) + [SyncPacket(commands)]
    {
      for k := 0 to |commands|
        invariant forall j :: 0 <= j < k ==> commands[j].servoId in servoIds
      {
        if commands[k].servoId !in servoIds {
          return Err(NotConfigured(commands[k].servoId));
        }
      }
      if commands == [] {
        return Ok(());
      }
      var params := [GOAL_POSITION_ADDRESS, GOAL_POSITION_WIDTH];
      for k := 0 to |commands|
        invariant params == [GOAL_POSITION_ADDRESS, GOAL_POSITION_WIDTH] + CommandBytes(commands, k)
      {
        params := params + [commands[k].servoId] + Le16(commands[k].positionTicks);
      }
      sent := sent + [Taken(port, PackInstruction(BROADCAST, SYNC_WRITE, params))];
      return if port.Works? then Ok(()) else Err(WriteFailed);
    }
  }

  /** What of a command travels: speed and acceleration stay behind. */
  datatype Goal = Goal(servoId: u8, positionTicks: u16)

  function GoalsOf(commands: seq<JointCommand>, n: nat): seq<Goal>
    requires n <= |commands|
  {
    if n == 0 then [] else GoalsOf(commands, n - 1) + [Goal(commands[n - 1].servoId, commands[n - 1].positionTicks)]
  }

  /** A servo's reading of sync write parameters: triples of id and position. */
  function DecodeTriples(b: Bytes): Option<seq<Goal>>
    decreases |b|
  {
    if b == [] then Some([])
    else if |b| < 3 then None
    else
      var n := |b| - 3;
      var before := DecodeTriples(b[..n]);
      if before.None? then None else Some(before.value + [Goal(b[n], U16At(b, n + 1))])
  }

  lemma {:induction false} TriplesRoundTrip(commands: seq<JointCommand>, n: nat)
    requires n <= |commands|
    ensures |CommandBytes(commands, n)| == 3 * n
    ensures DecodeTriples(CommandBytes(commands, n)) == Some(GoalsOf(commands, n))
  {
    if n > 0 {
      TriplesRoundTrip(commands, n - 1);
      var (before, c) := (CommandBytes(commands, n - 1), commands[n - 1]);
      var all := CommandBytes(commands, n);
      Le16RoundTrip(c.positionTicks);
      assert all == before + ([c.servoId] + Le16(c.positionTicks));
      assert all[..|all| - 3] == before;
      assert all[|all| - 3] == c.servoId && all[|all| - 2..] == Le16(c.positionTicks);
      assert U16At(all, |all| - 2) == U16At(all[|all| - 2..], 0);
    }
  }

  /** A sync write, read by the rules of the host's own parser, carries the ids and positions it
      was made of exactly up to 83 commands: from 84 on its length field has wrapped and the
      packet no longer parses. */
  lemma SyncWriteFaithfulIff(commands: seq<JointCommand>)
    ensures ParseStatusPacket(BROADCAST, SyncPacket(commands)).Ok? <==> |commands| <= 83
    ensures |commands| <= 83 ==>
              var p := ParseStatusPacket(BROADCAST, SyncPacket(commands)).value;
              && p.status == SYNC_WRITE && |p.params| >= 2
              && p.params[0] == GOAL_POSITION_ADDRESS && p.params[1] == GOAL_POSITION_WIDTH
              && DecodeTriples(p.params[2..]) == Some(GoalsOf(commands, |commands|))
  {
    TriplesRoundTrip(commands, |commands|);
    ParsePacked(BROADCAST, SYNC_WRITE, SyncParams(commands));
    assert SyncParams(commands)[2..] == CommandBytes(commands, |commands|);
    hide PackInstruction, ParseStatusPacket;
  }

  lemma {:induction false} TripleAt(commands: seq<JointCommand>, n: nat, k: nat)
    requires k < n <= |commands|
    ensures |CommandBytes(commands, n)| == 3 * n
    ensures var (b, c) := (CommandBytes(commands, n), commands[k]);
            && b[3 * k] == c.servoId
            && b[3 * k + 1] as int + 256 * b[3 * k + 2] as int == c.positionTicks
  {
    TriplesRoundTrip(commands, n - 1);
    if k < n - 1 {
      TripleAt(commands, n - 1, k);
    }
  }

  /** A sync write byte by byte: two bytes 255, the broadcast id 254, the length, instruction 0x83,
      address 42 and two bytes a servo; then each servo's id and position, the low byte first;
      and a last byte that makes the sum after the header 255 modulo 256. */
  lemma SyncWriteOnTheWire(commands: seq<JointCommand>, k: nat)
    requires k < |commands|
    ensures var p := SyncPacket(commands);
            && |p| == 8 + 3 * |commands|
            && p[0] == 255 && p[1] == 255 && p[2] == 254 && p[3] == (3 * |commands| + 4) % 256
            && p[4] == 0x83 && p[5] == 42 && p[6] == 2
            && p[7 + 3 * k] == commands[k].servoId
            && p[8 + 3 * k] as int + 256 * p[9 + 3 * k] as int == commands[k].positionTicks
            && Sum(p[2..]) % 256 == 255
  {
    hide Sum, PackInstruction, Checksum, CommandBytes;
    TripleAt(commands, |commands|, k);
    var (p, params) := (SyncPacket(commands), SyncParams(commands));
    PackedParts(BROADCAST, SYNC_WRITE, params);
    Inside(p, params, 0);
    Inside(p, params, 1);
    Inside(p, params, 2 + 3 * k);
    Inside(p, params, 3 + 3 * k);
    Inside(p, params, 4 + 3 * k);
    PackedSum(BROADCAST, SYNC_WRITE, params);
  }

  lemma Inside(p: Bytes, params: Bytes, i: nat)
    requires |p| >= 6 && p[5..|p| - 1] == params && i < |params|
    ensures p[5 + i] == params[i]
  {
  }

  /** The checksum completes the sum of a packet's bytes after the header. */
  lemma PackedSum(id: u8, instruction: u8, params: Bytes)
    ensures Sum(PackInstruction(id, instruction, params)[2..]) % 256 == 255
  {
    var p := PackInstruction(id, instruction, params);
    PackedParts(id, instruction, params);
    BodySum(p);
    hide Sum, PackInstruction;
    Completes(id + LengthField(params) + instruction + Sum(params));
  }

  lemma Completes(sum: nat)
    ensures (sum + (255 - sum % 256)) % 256 == 255
  {
  }
}
