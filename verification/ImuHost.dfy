/** The host side of the IMU link: one port read per call, and what that does to the
    bytes that come after a completed frame. */
module ImuHost {
  import opened Results
  import opened Words
  import opened ImuFrame
  import opened FrameParser
  import opened ParserRuns

  /** What the serial port answers to one read into the 64-byte buffer. */
  datatype PortRead = Data(bytes: Bytes) | TimedOut | Failed

  datatype HostError = Communication

  predicate CompletesFrame(p: Pushed) { p.Ok? && p.value.Some? }

  /** How many bytes of a read are looked at: up to the first that completes a frame. */
  function Kept(s: State, chunk: Bytes): (k: nat)
    ensures k <= |chunk|
    decreases |chunk|
  {
    if chunk == [] then 0
    else if CompletesFrame(Push(s, chunk[0]).1) then 1
    else 1 + Kept(Push(s, chunk[0]).0, chunk[1..])
  }

  function FirstFrame(s: State, chunk: Bytes): Option<Frame>
    decreases |chunk|
  {
    if chunk == [] then None
    else if CompletesFrame(Push(s, chunk[0]).1) then Push(s, chunk[0]).1.value
    else FirstFrame(Push(s, chunk[0]).0, chunk[1..])
  }

  function KeptPart(s: State, chunk: Bytes): Bytes {
    chunk[..Kept(s, chunk)]
  }

  /** The first `i` bytes of a read have been pushed, and completed no frame. */
  ghost predicate Scanned(start: State, bytes: Bytes, i: nat, s: State)
    requires i <= |bytes|
  {
    s == Run(start, bytes[..i]).0
    && Kept(start, bytes) == i + Kept(s, bytes[i..])
    && FirstFrame(start, bytes) == FirstFrame(s, bytes[i..])
  }

  lemma ScanStep(start: State, bytes: Bytes, i: nat, s: State)
    requires i < |bytes| && Scanned(start, bytes, i, s)
    ensures var (s1, pushed) := Push(s, bytes[i]);
            if CompletesFrame(pushed) then
              Kept(start, bytes) == i + 1 && FirstFrame(start, bytes) == pushed.value
              && s1 == Run(start, bytes[..i + 1]).0
            else
              Scanned(start, bytes, i + 1, s1)
  {
    RunSnoc(start, bytes[..i], bytes[i]);
    assert bytes[..i] + [bytes[i]] == bytes[..i + 1];
    assert bytes[i..][0] == bytes[i] && bytes[i..][1..] == bytes[i + 1..];
  }

  function BytesOf(read: PortRead): Bytes {
    if read.Data? then read.bytes else []
  }

  class UsbImuBridge {
    const parser: Parser
    /** What the port will answer, in order; after that every read times out. */
    var answers: seq<PortRead>

    constructor (answers: seq<PortRead>)
      ensures parser.Valid() && parser.Abstract() == IDLE && this.answers == answers
      ensures fresh(parser) && fresh(parser.buffer)
    {
      parser := new Parser();
      this.answers := answers;
    }

    method ReadPort() returns (read: PortRead)
      modifies this
      ensures old(answers) == [] ==> read == TimedOut && answers == []
      ensures old(answers) != [] ==> read == old(answers)[0] && answers == old(answers)[1..]
    {
      if answers == [] {
        return TimedOut;
      }
      read := answers[0];
      answers := answers[1..];
    }

    method NextFrame() returns (r: Result<Option<Frame>, HostError>, ghost read: PortRead)
      requires parser.Valid()
      modifies this, parser, parser.buffer
      ensures parser.Valid()
      ensures old(answers) == [] ==> read == TimedOut && answers == []
      ensures old(answers) != [] ==> read == old(answers)[0] && answers == old(answers)[1..]
      ensures r == if read.Failed? then Err(Communication)
                   else Ok(FirstFrame(old(parser.Abstract()), BytesOf(read)))
      ensures parser.Abstract()
           == Run(old(parser.Abstract()), KeptPart(old(parser.Abstract()), BytesOf(read))).0
    {
      var answer := ReadPort();
      read := answer;
      match answer
      case TimedOut => return Ok(None), answer;
      case Failed => return Err(Communication), answer;
      case Data(bytes) =>
        var frame := Scan(bytes);
        return Ok(frame), answer;
    }

    /** Pushes a read byte by byte, ignoring errors, until a frame completes. */
    method Scan(bytes: Bytes) returns (frame: Option<Frame>)
      requires parser.Valid()
      modifies parser, parser.buffer
      ensures parser.Valid()
      ensures frame == FirstFrame(old(parser.Abstract()), bytes)
      ensures parser.Abstract()
           == Run(old(parser.Abstract()), KeptPart(old(parser.Abstract()), bytes)).0
    {
      ghost var start := parser.Abstract();
      assert bytes[..0] == [] && bytes[0..] == bytes;
      for i := 0 to |bytes|
        invariant parser.Valid()
        invariant Scanned(start, bytes, i, parser.Abstract())
      {
        ScanStep(start, bytes, i, parser.Abstract());
        var pushed := parser.PushByte(bytes[i]);
        match pushed
        case Ok(Some(found)) => return Some(found);
        case Ok(None) =>
        case Err(_) =>
      }
      assert bytes[..|bytes|] == bytes;
      return None;
    }

    /** Keeps asking for frames while they are device infos. */
    method NextSample() returns (r: Result<Option<ImuSample>, HostError>)
      requires parser.Valid()
      modifies this, parser, parser.buffer
      ensures parser.Valid()
      ensures SampleCall(parser.Abstract(), answers, r) == NextSampleCall(old(parser.Abstract()), old(answers))
    {
      while true
        invariant parser.Valid()
        invariant NextSampleCall(parser.Abstract(), answers)
               == NextSampleCall(old(parser.Abstract()), old(answers))
        decreases |answers|
      {
        ghost var before := answers;
        var frame, read := NextFrame();
        if frame.Err? {
          return Err(frame.error);
        }
        if frame.value.None? {
          return Ok(None);
        }
        if frame.value.value.SampleFrame? {
          return Ok(Some(frame.value.value.sample));
        }
        assert before != [];
      }
    }
  }

  /** State, port and answer after one call of `NextSample`. */
  datatype SampleCall = SampleCall(
    state: State, answers: seq<PortRead>, result: Result<Option<ImuSample>, HostError>)

  function NextSampleCall(s: State, answers: seq<PortRead>): SampleCall
    decreases |answers|
  {
    if answers == [] then SampleCall(Run(s, KeptPart(s, [])).0, [], Ok(None))
    else
      var chunk := BytesOf(answers[0]);
      var s1 := Run(s, KeptPart(s, chunk)).0;
      if answers[0].Failed? then SampleCall(s1, answers[1..], Err(Communication))
      else match FirstFrame(s, chunk)
           case None => SampleCall(s1, answers[1..], Ok(None))
           case Some(SampleFrame(_, sample)) => SampleCall(s1, answers[1..], Ok(Some(sample)))
           case Some(InfoFrame(_, _)) => NextSampleCall(s1, answers[1..])
  }

  /** The frames completed in the reads one call of `NextSample` makes. */
  function CallFrames(s: State, answers: seq<PortRead>): seq<Frame>
    decreases |answers|
  {
    if answers == [] then []
    else
      var chunk := BytesOf(answers[0]);
      match FirstFrame(s, chunk)
      case None => []
      case Some(f) =>
        [f] + (if f.InfoFrame? then CallFrames(Run(s, KeptPart(s, chunk)).0, answers[1..]) else [])
  }

  predicate AllInfos(frames: seq<Frame>) {
    forall i :: 0 <= i < |frames| ==> frames[i].InfoFrame?
  }

  /** A call drops info frames and nothing else: the frames it saw are infos, followed by the
      returned sample when there is one. */
  lemma {:induction false} NextSampleDropsOnlyInfos(s: State, answers: seq<PortRead>)
    ensures var (frames, r) := (CallFrames(s, answers), NextSampleCall(s, answers).result);
            if r.Ok? && r.value.Some? then
              |frames| > 0 && AllInfos(frames[..|frames| - 1])
              && frames[|frames| - 1].SampleFrame? && frames[|frames| - 1].sample == r.value.value
            else
              AllInfos(frames)
    decreases |answers|
  {
    if answers != [] {
      var chunk := BytesOf(answers[0]);
      var s1, f := Run(s, KeptPart(s, chunk)).0, FirstFrame(s, chunk);
      if f.Some? && f.value.InfoFrame? {
        var frames, later := CallFrames(s, answers), CallFrames(s1, answers[1..]);
        NextSampleDropsOnlyInfos(s1, answers[1..]);
        assert frames == [f.value] + later;
        assert later != [] ==> frames[..|frames| - 1] == [f.value] + later[..|later| - 1];
      }
    }
  }

  /** A sample frame that arrives in one read is returned by that call; a read that times out
      returns nothing, and a port error fails. */
  lemma SampleArrives(f: Bytes)
    requires DecodeFrame(f).Ok? && DecodeFrame(f).value.SampleFrame?
    ensures NextSampleCall(IDLE, [Data(f)]).result == Ok(Some(DecodeFrame(f).value.sample))
    ensures NextSampleCall(IDLE, [TimedOut]).result == Ok(None)
    ensures NextSampleCall(IDLE, [Failed]).result == Err(Communication)
  {
    hide DecodeFrame, Push;
    AcceptedIsWellFramed(f);
    FrameRun(IDLE, f);
    FirstFrameIs(IDLE, f, |f| - 1);
  }

  // ---------------------------------------------------------------------- many reads

  /** The frames a run of pushes returned. */
  function FramesOf(outputs: seq<Pushed>): seq<Frame> {
    if outputs == [] then []
    else FrameIn(outputs[0]) + FramesOf(outputs[1..])
  }

  function FrameIn(p: Pushed): seq<Frame> {
    if CompletesFrame(p) then [p.value.value] else []
  }

  lemma {:induction false} FramesOfAppend(a: seq<Pushed>, b: seq<Pushed>)
    ensures FramesOf(a + b) == FramesOf(a) + FramesOf(b)
    decreases |a|
  {
    if a == [] {
      assert a + b == b;
    } else {
      assert (a + b)[0] == a[0] && (a + b)[1..] == a[1..] + b;
      FramesOfAppend(a[1..], b);
      var head, tail := FrameIn(a[0]), FramesOf(a[1..]);
      assert head + (tail + FramesOf(b)) == (head + tail) + FramesOf(b);
    }
  }

  /** What successive calls of `NextFrame` return over successive reads. */
  function HostFrames(s: State, chunks: seq<Bytes>): seq<Frame>
    decreases |chunks|
  {
    if chunks == [] then []
    else (match FirstFrame(s, chunks[0]) case Some(f) => [f] case None => [])
         + HostFrames(Run(s, KeptPart(s, chunks[0])).0, chunks[1..])
  }

  function KeptBytes(s: State, chunks: seq<Bytes>): Bytes
    decreases |chunks|
  {
    if chunks == [] then []
    else KeptPart(s, chunks[0]) + KeptBytes(Run(s, KeptPart(s, chunks[0])).0, chunks[1..])
  }

  /** One call returns the one frame of the bytes it kept. */
  lemma {:induction false} KeptYieldsFirstFrame(s: State, chunk: Bytes)
    ensures FramesOf(Run(s, KeptPart(s, chunk)).1)
         == match FirstFrame(s, chunk) case Some(f) => [f] case None => []
    decreases |chunk|
  {
    if chunk != [] {
      var s1, kept := Push(s, chunk[0]).0, KeptPart(s, chunk);
      RunCons(s, kept);
      if CompletesFrame(Push(s, chunk[0]).1) {
        assert kept[1..] == [];
        assert FramesOf(Run(s, kept).1[1..]) == [];
      } else {
        assert kept[1..] == KeptPart(s1, chunk[1..]);
        KeptYieldsFirstFrame(s1, chunk[1..]);
        assert Run(s, kept).1[1..] == Run(s1, kept[1..]).1;
      }
    }
  }

  /** Whatever the chunking, the host sees the frames of one continuous parse of the bytes it
      kept. */
  lemma {:induction false} HostSeesKeptBytes(s: State, chunks: seq<Bytes>)
    ensures HostFrames(s, chunks) == FramesOf(Run(s, KeptBytes(s, chunks)).1)
    decreases |chunks|
  {
    if chunks != [] {
      var kept := KeptPart(s, chunks[0]);
      var s1 := Run(s, kept).0;
      KeptYieldsFirstFrame(s, chunks[0]);
      RunAppend(s, kept, KeptBytes(s1, chunks[1..]));
      FramesOfAppend(Run(s, kept).1, Run(s1, KeptBytes(s1, chunks[1..])).1);
      HostSeesKeptBytes(s1, chunks[1..]);
    }
  }

  /** Every read stops at the first frame completed in it. */
  predicate NoTails(s: State, chunks: seq<Bytes>)
    decreases |chunks|
  {
    chunks == []
    || (Kept(s, chunks[0]) == |chunks[0]|
        && NoTails(Run(s, KeptPart(s, chunks[0])).0, chunks[1..]))
  }

  lemma {:induction false} KeptIsShorter(s: State, chunks: seq<Bytes>)
    ensures |KeptBytes(s, chunks)| <= |Concat(chunks)|
    ensures NoTails(s, chunks) <==> |KeptBytes(s, chunks)| == |Concat(chunks)|
    ensures NoTails(s, chunks) ==> KeptBytes(s, chunks) == Concat(chunks)
    decreases |chunks|
  {
    if chunks != [] {
      KeptIsShorter(Run(s, KeptPart(s, chunks[0])).0, chunks[1..]);
    }
  }

  /** No byte is lost exactly when no read carries bytes past the first frame completed in
      it, and then the chunking is invisible. */
  lemma LosslessIff(s: State, chunks: seq<Bytes>)
    ensures KeptBytes(s, chunks) == Concat(chunks) <==> NoTails(s, chunks)
    ensures NoTails(s, chunks) ==>
      HostFrames(s, chunks) == FramesOf(Run(s, Concat(chunks)).1)
  {
    KeptIsShorter(s, chunks);
    HostSeesKeptBytes(s, chunks);
  }

  /** What a read loses is exactly its tail after the first frame completed in it. */
  lemma {:induction false} LostIsTheTail(s: State, chunk: Bytes)
    ensures Kept(s, chunk) < |chunk| ==> FirstFrame(s, chunk).Some?
    ensures FirstFrame(s, chunk).Some? ==>
      0 < Kept(s, chunk)
      && Run(s, chunk).1[Kept(s, chunk) - 1] == Ok(FirstFrame(s, chunk))
    ensures forall i :: 0 <= i < Kept(s, chunk) - 1 ==> !CompletesFrame(Run(s, chunk).1[i])
    ensures FirstFrame(s, chunk).None? ==>
      forall i :: 0 <= i < |chunk| ==> !CompletesFrame(Run(s, chunk).1[i])
    decreases |chunk|
  {
    if chunk != [] {
      RunCons(s, chunk);
      LostIsTheTail(Push(s, chunk[0]).0, chunk[1..]);
    }
  }

  /** Two frames that arrive in one read: the second is lost. */
  lemma SecondFrameLost(f: Bytes, g: Bytes)
    requires DecodeFrame(f).Ok? && DecodeFrame(g).Ok?
    ensures HostFrames(IDLE, [f + g]) == [DecodeFrame(f).value]
    ensures FramesOf(Run(IDLE, f + g).1) == [DecodeFrame(f).value, DecodeFrame(g).value]
  {
    hide DecodeFrame, Push, FramesOf;
    AcceptedIsWellFramed(f);
    AcceptedIsWellFramed(g);
    FrameRun(IDLE, f);
    FrameRun(IDLE, g);
    RunAppend(IDLE, f, g);
    FramesOfAppend(Run(IDLE, f).1, Run(IDLE, g).1);
    FramesOfFrame(f);
    FramesOfFrame(g);
    FirstFrameIs(IDLE, f + g, |f| - 1);
    assert HostFrames(IDLE, [f + g]) == [DecodeFrame(f).value]
      + HostFrames(Run(IDLE, KeptPart(IDLE, f + g)).0, []);
  }

  lemma {:induction false} QuietHasNoFrames(n: nat)
    ensures FramesOf(Quiet(n)) == []
    decreases n
  {
    if n > 0 {
      assert Quiet(n)[1..] == Quiet(n - 1);
      QuietHasNoFrames(n - 1);
    }
  }

  lemma FramesOfFrame(f: Bytes)
    requires DecodeFrame(f).Ok? && f != []
    ensures FramesOf(Quiet(|f| - 1) + [Delivered(DecodeFrame(f))]) == [DecodeFrame(f).value]
  {
    var last := [Delivered(DecodeFrame(f))];
    QuietHasNoFrames(|f| - 1);
    FramesOfAppend(Quiet(|f| - 1), last);
    assert FramesOf(last) == [DecodeFrame(f).value] + FramesOf(last[1..]);
  }

  lemma {:induction false} FirstFrameIs(s: State, chunk: Bytes, i: nat)
    requires i < |chunk| && CompletesFrame(Run(s, chunk).1[i])
    requires forall k :: 0 <= k < i ==> !CompletesFrame(Run(s, chunk).1[k])
    ensures FirstFrame(s, chunk) == Run(s, chunk).1[i].value
    decreases i
  {
    RunCons(s, chunk);
    if i > 0 {
      assert !CompletesFrame(Run(s, chunk).1[0]);
      forall k | 0 <= k < i - 1
        ensures !CompletesFrame(Run(Push(s, chunk[0]).0, chunk[1..]).1[k])
      {
        assert !CompletesFrame(Run(s, chunk).1[k + 1]);
      }
      FirstFrameIs(Push(s, chunk[0]).0, chunk[1..], i - 1);
    }
  }
}
