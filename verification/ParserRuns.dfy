/** The stream parser against the batch decoder, and how it finds its feet again. */
module ParserRuns {
  import opened Results
  import opened Words
  import opened ImuFrame
  import opened FrameParser

  /** Bytes laid out as some frame, whatever their checksum. */
  predicate WellFramed(f: Bytes) {
    && |f| >= HEADER_LEN + CRC_LEN
    && f[0] == SYNC_0 && f[1] == SYNC_1 && f[2] == PROTOCOL_VERSION
    && HeaderAccepted(f)
    && |f| == FrameLen(f[4])
  }

  lemma AcceptedIsWellFramed(f: Bytes)
    requires DecodeFrame(f).Ok?
    ensures WellFramed(f)
  {
  }

  /** `n` times `Ok(None)`. */
  function Quiet(n: nat): (q: seq<Pushed>)
    ensures |q| == n
  {
    seq(n, _ => Ok(None))
  }

  /** The bytes of `a` hold no sync pair. */
  predicate NoPair(a: Bytes) {
    forall i :: 0 <= i < |a| - 1 ==> !(a[i] == SYNC_0 && a[i + 1] == SYNC_1)
  }

  // --------------------------------------------------------- the parser inside a frame

  function Inside(f: Bytes, k: nat): State
    requires k <= |f|
  {
    State(f[..k], if k < HEADER_LEN then 0 else |f|)
  }

  lemma PushInside(f: Bytes, k: nat)
    requires WellFramed(f) && 2 <= k < |f|
    ensures Push(Inside(f, k), f[k]) ==
      if k + 1 < |f| then (Inside(f, k + 1), Ok(None)) else (IDLE, Delivered(DecodeFrame(f)))
  {
    assert f[..k] + [f[k]] == f[..k + 1];
    assert f[..|f|] == f;
  }

  lemma RunCons(s: State, input: Bytes)
    requires input != []
    ensures Run(s, input).0 == Run(Push(s, input[0]).0, input[1..]).0
    ensures Run(s, input).1 == [Push(s, input[0]).1] + Run(Push(s, input[0]).0, input[1..]).1
  {
  }

  lemma {:induction false} RunInside(f: Bytes, k: nat)
    requires WellFramed(f) && 2 <= k < |f|
    ensures Run(Inside(f, k), f[k..]).0 == IDLE
    ensures Run(Inside(f, k), f[k..]).1 == Quiet(|f| - 1 - k) + [Delivered(DecodeFrame(f))]
    decreases |f| - k
  {
    hide Push, DecodeFrame, WellFramed;
    PushInside(f, k);
    RunCons(Inside(f, k), f[k..]);
    assert f[k..][1..] == f[k + 1..];
    if k + 1 < |f| {
      RunInside(f, k + 1);
    }
  }

  lemma FrameStart(s: State, f: Bytes)
    requires Reachable(s) && |s.held| <= 1
    requires |f| >= 6 && f[0] == SYNC_0 && f[1] == SYNC_1
    ensures Push(s, f[0]) == (State([SYNC_0], 0), Ok(None))
    ensures Push(State([SYNC_0], 0), f[1]) == (Inside(f, 2), Ok(None))
  {
    assert f[..2] == [SYNC_0] + [f[1]];
  }

  /** From an idle parser, or one that has just seen a first sync byte, a frame comes out as
      the batch decoder sees it, on its last byte and not before. */
  lemma FrameRun(s: State, f: Bytes)
    requires Reachable(s) && |s.held| <= 1
    requires WellFramed(f)
    ensures Run(s, f).0 == IDLE
    ensures Run(s, f).1 == Quiet(|f| - 1) + [Delivered(DecodeFrame(f))]
  {
    FrameStart(s, f);
    RunCons(s, f);
    RunCons(State([SYNC_0], 0), f[1..]);
    RunInside(f, 2);
    assert f[1..][1..] == f[2..];
  }

  /** Noise without a sync pair is swallowed in silence. */
  lemma {:induction false} NoiseRun(s: State, noise: Bytes)
    requires Reachable(s) && |s.held| <= 1
    requires NoPair(noise)
    requires |s.held| == 1 && noise != [] ==> noise[0] != SYNC_1
    ensures Run(s, noise).1 == Quiet(|noise|)
    ensures Reachable(Run(s, noise).0) && |Run(s, noise).0.held| <= 1
    decreases |noise|
  {
    if noise != [] {
      var s1 := Push(s, noise[0]).0;
      PushKeeps(s, noise[0]);
      assert noise[1..] != [] ==> noise[1..][0] == noise[1];
      NoiseRun(s1, noise[1..]);
      assert [Ok(None)] + Quiet(|noise| - 1) == Quiet(|noise|);
    }
  }

  // ------------------------------------------------------------ streams of noise and frames

  datatype Item = Item(noise: Bytes, frame: Bytes)

  predicate GoodItem(item: Item) {
    NoPair(item.noise) && WellFramed(item.frame)
  }

  function Transmit(items: seq<Item>): Bytes {
    if items == [] then [] else items[0].noise + items[0].frame + Transmit(items[1..])
  }

  function Expected(items: seq<Item>): seq<Pushed> {
    if items == [] then []
    else Quiet(|items[0].noise|) + ExpectedOfFrame(items[0].frame) + Expected(items[1..])
  }

  function ExpectedOfFrame(f: Bytes): seq<Pushed> {
    if f == [] then [] else Quiet(|f| - 1) + [Delivered(DecodeFrame(f))]
  }

  /** Refinement: on any alternation of noise blocks and frames the parser returns exactly
      what decoding each frame returns, on the frame's last byte, and `Ok(None)` elsewhere. */
  lemma {:induction false} StreamRefinesBatch(items: seq<Item>)
    requires forall i :: 0 <= i < |items| ==> GoodItem(items[i])
    ensures Run(IDLE, Transmit(items)).0 == IDLE
    ensures Run(IDLE, Transmit(items)).1 == Expected(items)
    decreases |items|
  {
    hide Push, DecodeFrame, WellFramed, Quiet, Reachable;
    if items != [] {
      var noise, frame, rest := items[0].noise, items[0].frame, Transmit(items[1..]);
      assert GoodItem(items[0]);
      NoiseRun(IDLE, noise);
      FrameRun(Run(IDLE, noise).0, frame);
      RunAppend(IDLE, noise, frame);
      RunAppend(IDLE, noise + frame, rest);
      StreamRefinesBatch(items[1..]);
    }
  }

  // ----------------------------------------------------------------- self-stabilisation

  lemma PushGrowsOrResets(s: State, byte: u8)
    requires Reachable(s) && |s.held| >= 2
    ensures var s1 := Push(s, byte).0;
            s1 == IDLE || (|s1.held| == |s.held| + 1 <= MAX_FRAME_LEN)
  {
  }

  /** From every reachable state that holds at least a sync pair, at most
      `MAX_FRAME_LEN - held + 1` further bytes, whatever they are, bring the parser back to
      idle; this includes the state an unknown frame kind leaves behind. */
  lemma {:induction false} Stabilises(s: State, input: Bytes)
    requires Reachable(s) && |s.held| >= 2
    requires |input| == MAX_FRAME_LEN - |s.held| + 1
    ensures exists k :: 1 <= k <= |input| && Run(s, input[..k]).0 == IDLE
    decreases |input|
  {
    var s1 := Push(s, input[0]).0;
    PushGrowsOrResets(s, input[0]);
    PushKeeps(s, input[0]);
    if s1 == IDLE {
      RunCons(s, input[..1]);
      assert Run(s, input[..1]).0 == IDLE;
    } else {
      Stabilises(s1, input[1..]);
      var k :| 1 <= k <= |input| - 1 && Run(s1, input[1..][..k]).0 == IDLE;
      RunCons(s, input[..k + 1]);
      assert input[..k + 1][1..] == input[1..][..k];
      assert Run(s, input[..k + 1]).0 == IDLE;
    }
  }

  /** The bound is met: after an unknown frame kind the parser swallows bytes, silently,
      until its buffer is full, and the byte after that is lost as well. */
  lemma {:induction false} UnknownKindSwallows(s: State, input: Bytes)
    requires Reachable(s) && |s.held| >= HEADER_LEN && KindFrom(s.held[3]).Err?
    requires |input| == MAX_FRAME_LEN - |s.held| + 1
    ensures Run(s, input).0 == IDLE
    ensures Run(s, input).1 == Quiet(|input| - 1) + [Err(FrameTooLong(1))]
    decreases |input|
  {
    RunCons(s, input);
    if |s.held| < MAX_FRAME_LEN {
      UnknownKindSwallows(Push(s, input[0]).0, input[1..]);
    }
  }

  lemma IdleIsReachable()
    ensures Reachable(IDLE)
  {
  }

  /** A known frame kind, once its header is in, always comes to an end: the frame is judged by
      the batch decoder as soon as all its bytes are there, and not before. */
  lemma {:induction false} KnownKindEnds(s: State, input: Bytes)
    requires Reachable(s) && |s.held| >= HEADER_LEN && KindFrom(s.held[3]).Ok?
    requires |input| >= s.expected - |s.held|
    ensures 0 < s.expected - |s.held| <= MAX_FRAME_LEN - |s.held|
    ensures var missing := s.expected - |s.held|;
            && Run(s, input).1[..missing - 1] == Quiet(missing - 1)
            && Run(s, input).1[missing - 1] == Delivered(DecodeFrame(s.held + input[..missing]))
    decreases |input|
  {
    hide DecodeFrame;
    RunCons(s, input);
    var missing := s.expected - |s.held|;
    if missing == 1 {
      assert input[..1] == [input[0]];
    } else {
      var s1 := Push(s, input[0]).0;
      KnownKindEnds(s1, input[1..]);
      assert s1.held + input[1..][..missing - 1] == s.held + input[..missing];
    }
  }

  /** The exact condition for swallowing: of the reachable states that hold a header, those with an
      unknown kind, whatever the input. */
  lemma SwallowsIffUnknownKind(s: State, input: Bytes)
    requires Reachable(s) && |s.held| >= HEADER_LEN
    requires |input| == MAX_FRAME_LEN - |s.held| + 1
    ensures Run(s, input) == (IDLE, Quiet(|input| - 1) + [Err(FrameTooLong(1))]) <==> KindFrom(s.held[3]).Err?
  {
    if KindFrom(s.held[3]).Err? {
      UnknownKindSwallows(s, input);
    } else {
      KnownKindEnds(s, input);
      var missing := s.expected - |s.held|;
      assert (Quiet(|input| - 1) + [Err(FrameTooLong(1))])[missing - 1] == Ok(None);
      assert Run(s, input).1[missing - 1] != Ok(None);
    }
  }

  /** From a state that holds a sync pair, any bytes without a further sync pair either
      leave the parser listening again, or are all swallowed. */
  lemma {:induction false} AcrossNoise(s: State, noise: Bytes)
    requires Reachable(s) && |s.held| >= 2
    requires NoPair(noise)
    ensures var s1 := Run(s, noise).0;
            Reachable(s1) && (|s1.held| <= 1 || |s1.held| == |s.held| + |noise|)
    decreases |noise|
  {
    RunKeeps(s, noise);
    if noise != [] {
      var s1 := Push(s, noise[0]).0;
      PushGrowsOrResets(s, noise[0]);
      PushKeeps(s, noise[0]);
      RunCons(s, noise);
      if s1 == IDLE {
        NoiseRun(IDLE, noise[1..]);
      } else {
        AcrossNoise(s1, noise[1..]);
      }
    }
  }

  /** A frame whose only sync pair is the one it starts with. */
  predicate LoneSync(f: Bytes) {
    WellFramed(f) && NoPair(f[1..])
  }

  lemma AcrossFrame(s: State, f: Bytes)
    requires Reachable(s) && |s.held| >= 2 && LoneSync(f)
    ensures var s1 := Run(s, f).0;
            Reachable(s1) && (|s1.held| <= 1 || |s1.held| == |s.held| + |f|)
  {
    var s1 := Push(s, f[0]).0;
    PushGrowsOrResets(s, f[0]);
    PushKeeps(s, f[0]);
    RunCons(s, f);
    if s1 == IDLE {
      NoiseRun(IDLE, f[1..]);
    } else {
      AcrossNoise(s1, f[1..]);
    }
  }

  function Concat(frames: seq<Bytes>): Bytes {
    if frames == [] then [] else frames[0] + Concat(frames[1..])
  }

  /** Where frame `j` starts. */
  function Offset(frames: seq<Bytes>, j: nat): nat
    requires j <= |frames|
  {
    if j == 0 then 0 else |frames[0]| + Offset(frames[1..], j - 1)
  }

  lemma {:induction false} OffsetFits(frames: seq<Bytes>, j: nat)
    requires j < |frames|
    ensures Offset(frames, j) + |frames[j]| <= |Concat(frames)|
    decreases j
  {
    if j > 0 {
      OffsetFits(frames[1..], j - 1);
    }
  }

  function LastOutput(f: Bytes): Pushed
    requires f != []
  {
    Run(IDLE, f).1[|f| - 1]
  }

  /** Over one whole frame: a listening parser delivers it, a swallowing one either starts
      to listen or has swallowed all of it. */
  lemma OneFrame(s: State, f: Bytes, rest: Bytes)
    requires Reachable(s) && LoneSync(f)
    ensures f != []
    ensures var s1 := Run(s, f).0;
            Reachable(s1) && (|s1.held| <= 1 || |s1.held| == |s.held| + |f|)
    ensures |s.held| <= 1 ==> |Run(s, f).0.held| <= 1
                              && Run(s, f + rest).1[|f| - 1] == LastOutput(f)
    ensures Run(s, f + rest).1[|f|..] == Run(Run(s, f).0, rest).1
  {
    RunAppend(s, f, rest);
    if |s.held| <= 1 {
      FrameRun(s, f);
      FrameRun(IDLE, f);
    } else {
      AcrossFrame(s, f);
    }
  }

  /** Frame `j` of the stream comes out whole. */
  ghost predicate ComesOut(s: State, frames: seq<Bytes>, j: nat)
    requires j < |frames|
  {
    var end := Offset(frames, j) + |frames[j]|;
    0 < |frames[j]| && end <= |Concat(frames)|
    && Run(s, Concat(frames)).1[end - 1] == LastOutput(frames[j])
  }

  lemma ComesOutLater(s: State, frames: seq<Bytes>, j: nat)
    requires 0 < j < |frames| && Reachable(s) && LoneSync(frames[0])
    requires ComesOut(Run(s, frames[0]).0, frames[1..], j - 1)
    ensures ComesOut(s, frames, j)
  {
    var f, rest := frames[0], Concat(frames[1..]);
    OneFrame(s, f, rest);
    var i := Offset(frames[1..], j - 1) + |frames[j]| - 1;
    assert Run(s, f + rest).1[|f|..][i] == Run(s, f + rest).1[|f| + i];
  }

  /** `swallowed` bytes of the frames have gone by since the garbage ended, and the parser
      may still be swallowing; frame `j` comes out if it starts late enough. */
  lemma {:induction false} DeliveredFrom(s: State, frames: seq<Bytes>, swallowed: nat, j: nat)
    requires Reachable(s) && (|s.held| <= 1 || |s.held| >= 2 + swallowed)
    requires forall i :: 0 <= i < |frames| ==> LoneSync(frames[i])
    requires j < |frames| && swallowed + Offset(frames, j) >= MAX_FRAME_LEN - 1
    ensures ComesOut(s, frames, j)
    decreases j
  {
    assert LoneSync(frames[0]);
    OneFrame(s, frames[0], Concat(frames[1..]));
    if j == 0 {
      OffsetFits(frames, 0);
    } else {
      DeliveredFrom(Run(s, frames[0]).0, frames[1..], swallowed + |frames[0]|, j - 1);
      ComesOutLater(s, frames, j);
    }
  }

  /** Resynchronisation: whatever came before, in a stream of frames each holding a single
      sync pair, every frame that starts at least 33 bytes after the garbage is delivered. */
  lemma GarbageIsOvercome(garbage: Bytes, frames: seq<Bytes>, j: nat)
    requires forall i :: 0 <= i < |frames| ==> LoneSync(frames[i])
    requires j < |frames| && Offset(frames, j) >= MAX_FRAME_LEN - 1
    ensures var end := |garbage| + Offset(frames, j) + |frames[j]|;
            0 < end <= |garbage| + |Concat(frames)|
            && Run(IDLE, garbage + Concat(frames)).1[end - 1] == Delivered(DecodeFrame(frames[j]))
  {
    hide Push, DecodeFrame, WellFramed, Reachable;
    IdleIsReachable();
    RunKeeps(IDLE, garbage);
    RunAppend(IDLE, garbage, Concat(frames));
    DeliveredFrom(Run(IDLE, garbage).0, frames, 0, j);
    assert LoneSync(frames[j]);
    FrameRun(IDLE, frames[j]);
  }
}
