/** The byte-at-a-time, resynchronising frame parser: the object with its buffer, and the
    step function on abstract states that the object is proved to follow. */
module FrameParser {
  import opened Results
  import opened Words
  import opened ImuFrame
  import opened ImuCodec

  /** What one push returns. */
  type Pushed = Result<Option<Frame>, DecodeError>

  /** The bytes held so far, and the length of the frame they open (0 when not known). */
  datatype State = State(held: Bytes, expected: nat)

  const IDLE := State([], 0)

  function Delivered(r: Decoded): Pushed {
    match r
    case Ok(frame) => Ok(Some(frame))
    case Err(e) => Err(e)
  }

  function Complete(s: State): (State, Pushed) {
    if s.expected != 0 && |s.held| == s.expected then (IDLE, Delivered(DecodeFrame(s.held)))
    else (s, Ok(None))
  }

  function Extend(held: Bytes, expected: nat): (State, Pushed) {
    if |held| != HEADER_LEN then
      Complete(State(held, expected))
    else if held[2] != PROTOCOL_VERSION then
      (IDLE, Err(InvalidVersion(held[2])))
    else match KindFrom(held[3])
         case Err(e) =>
           (State(held, expected), Err(e))  // returned without a reset
         case Ok(kind) =>
           if FrameLen(held[4]) > MAX_FRAME_LEN then
             (IDLE, Err(FrameTooLong(FrameLen(held[4]))))
           else if !ValidPayloadLen(kind, held[4]) then
             (IDLE, Err(PayloadLengthMismatch(kind, held[4])))
           else
             Complete(State(held, FrameLen(held[4])))
  }

  function Push(s: State, byte: u8): (State, Pushed) {
    if |s.held| == 0 then
      (if byte == SYNC_0 then s.(held := [byte]) else s, Ok(None))
    else if |s.held| == 1 then
      (if byte == SYNC_1 then s.(held := s.held + [byte])
       else if byte == SYNC_0 then s.(held := [byte])
       else IDLE, Ok(None))
    else if |s.held| >= MAX_FRAME_LEN then
      (IDLE, Err(FrameTooLong(1)))  // the length is read after the reset
    else
      Extend(s.held + [byte], s.expected)
  }

  // --------------------------------------------------------------------------- the object

  class Parser {
    const buffer: array<u8>
    var len: nat
    var expectedLen: nat

    ghost predicate Valid()
      reads this
    {
      buffer.Length == MAX_FRAME_LEN && len <= MAX_FRAME_LEN && expectedLen <= MAX_FRAME_LEN
    }

    ghost function Abstract(): State
      requires Valid()
      reads this, buffer
    {
      State(buffer[..len], expectedLen)
    }

    constructor ()
      ensures Valid() && fresh(buffer)
      ensures Abstract() == IDLE
    {
      buffer := new u8[MAX_FRAME_LEN](_ => 0);
      len := 0;
      expectedLen := 0;
    }

    method Reset()
      requires Valid()
      modifies this`len, this`expectedLen
      ensures Valid() && Abstract() == IDLE
    {
      len := 0;
      expectedLen := 0;
    }

    method PushByte(byte: u8) returns (r: Pushed)
      requires Valid()
      modifies this`len, this`expectedLen, buffer
      ensures Valid()
      ensures (Abstract(), r) == Push(old(Abstract()), byte)
    {
      if len == 0 {
        if byte == SYNC_0 {
          buffer[0] := byte;
          len := 1;
          assert buffer[..len] == [byte];
        }
        return Ok(None);
      }
      if len == 1 {
        if byte == SYNC_1 {
          buffer[1] := byte;
          len := 2;
          assert buffer[..len] == old(buffer[..len]) + [byte];
        } else if byte == SYNC_0 {
          buffer[0] := byte;
          len := 1;
          assert buffer[..len] == [byte];
        } else {
          Reset();
          assert buffer[..len] == [];
        }
        return Ok(None);
      }
      if len >= MAX_FRAME_LEN {
        Reset();
        return Err(FrameTooLong(len + 1));
      }
      buffer[len] := byte;
      len := len + 1;
      assert buffer[..len] == old(buffer[..len]) + [byte];
      if len == HEADER_LEN {
        if buffer[2] != PROTOCOL_VERSION {
          var version := buffer[2];
          Reset();
          return Err(InvalidVersion(version));
        }
        var kind := KindFrom(buffer[3]);
        if kind.Err? {
          return Err(kind.error);
        }
        var payloadLen := buffer[4];
        var expected := FrameLen(payloadLen);
        if expected > MAX_FRAME_LEN {
          Reset();
          return Err(FrameTooLong(expected));
        }
        if !ValidPayloadLen(kind.value, payloadLen) {
          Reset();
          return Err(PayloadLengthMismatch(kind.value, payloadLen));
        }
        expectedLen := expected;
      }
      if expectedLen != 0 && len == expectedLen {
        var parsed := Decode(buffer[..expectedLen]);
        Reset();
        return Delivered(parsed);
      }
      return Ok(None);
    }

    /** Feeds a slice until a frame completes or an error surfaces; the rest is not read. */
    method PushSlice(bytes: Bytes) returns (r: Pushed)
      requires Valid()
      modifies this`len, this`expectedLen, buffer
      ensures Valid()
      ensures var k := Consumed(old(Abstract()), bytes);
              Abstract() == Run(old(Abstract()), bytes[..k]).0
              && r == SliceResult(old(Abstract()), bytes)
    {
      ghost var start := Abstract();
      for i := 0 to |bytes|
        invariant Valid()
        invariant Abstract() == Run(start, bytes[..i]).0
        invariant SliceResult(start, bytes) == SliceResult(Abstract(), bytes[i..])
        invariant Consumed(start, bytes) == i + Consumed(Abstract(), bytes[i..])
      {
        ghost var before := Abstract();
        RunSnoc(start, bytes[..i], bytes[i]);
        assert bytes[..i] + [bytes[i]] == bytes[..i + 1];
        assert bytes[i..][0] == bytes[i] && bytes[i..][1..] == bytes[i + 1..];
        var pushed := PushByte(bytes[i]);
        if pushed != Ok(None) {
          return pushed;
        }
      }
      assert bytes[..|bytes|] == bytes;
      return Ok(None);
    }
  }

  // --------------------------------------------------------------------------------- runs

  /** Pushing byte after byte: the final state and everything returned on the way. */
  function Run(s: State, input: Bytes): (r: (State, seq<Pushed>))
    ensures |r.1| == |input|
    decreases |input|
  {
    if input == [] then (s, [])
    else
      var (s1, o) := Push(s, input[0]);
      var (s2, rest) := Run(s1, input[1..]);
      (s2, [o] + rest)
  }

  lemma {:induction false} RunAppend(s: State, a: Bytes, b: Bytes)
    ensures Run(s, a + b).0 == Run(Run(s, a).0, b).0
    ensures Run(s, a + b).1 == Run(s, a).1 + Run(Run(s, a).0, b).1
    decreases |a|
  {
    if a == [] {
      assert a + b == b;
    } else {
      assert (a + b)[1..] == a[1..] + b;
      RunAppend(Push(s, a[0]).0, a[1..], b);
    }
  }

  lemma RunSnoc(s: State, a: Bytes, byte: u8)
    ensures Run(s, a + [byte]).0 == Push(Run(s, a).0, byte).0
  {
    RunAppend(s, a, [byte]);
  }

  /** How many bytes of a slice are read before something other than `Ok(None)` is returned. */
  function Consumed(s: State, bytes: Bytes): (k: nat)
    ensures k <= |bytes|
    decreases |bytes|
  {
    if bytes == [] then 0
    else if Push(s, bytes[0]).1 != Ok(None) then 1
    else 1 + Consumed(Push(s, bytes[0]).0, bytes[1..])
  }

  function SliceResult(s: State, bytes: Bytes): Pushed
    decreases |bytes|
  {
    if bytes == [] then Ok(None)
    else if Push(s, bytes[0]).1 != Ok(None) then Push(s, bytes[0]).1
    else SliceResult(Push(s, bytes[0]).0, bytes[1..])
  }

  // ------------------------------------------------------------------- reachable states

  predicate HeaderAccepted(held: Bytes)
    requires |held| >= HEADER_LEN
  {
    KindFrom(held[3]).Ok? && ValidPayloadLen(KindFrom(held[3]).value, held[4])
  }

  /** What holds of every state a new parser can be pushed into. */
  predicate Reachable(s: State) {
    && |s.held| <= MAX_FRAME_LEN
    && (|s.held| >= 1 ==> s.held[0] == SYNC_0)
    && (|s.held| >= 2 ==> s.held[1] == SYNC_1)
    && (|s.held| < HEADER_LEN ==> s.expected == 0)
    && (|s.held| >= HEADER_LEN ==>
          s.held[2] == PROTOCOL_VERSION
          && if KindFrom(s.held[3]).Err? then s.expected == 0
             else HeaderAccepted(s.held) && |s.held| < s.expected == FrameLen(s.held[4]))
  }

  lemma PushKeeps(s: State, byte: u8)
    requires Reachable(s)
    ensures Reachable(Push(s, byte).0)
  {
  }

  lemma {:induction false} RunKeeps(s: State, input: Bytes)
    requires Reachable(s)
    ensures Reachable(Run(s, input).0)
    decreases |input|
  {
    if input != [] {
      PushKeeps(s, input[0]);
      RunKeeps(Push(s, input[0]).0, input[1..]);
    }
  }
}
