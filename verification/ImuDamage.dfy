/** Which damage to an accepted frame the decoder is guaranteed to notice. */
module ImuDamage {
  import opened Results
  import opened Words
  import opened ShiftRegister
  import opened PowersOfX
  import opened Crc16
  import opened ImuFrame

  lemma SameCoveredSameStored(a: Bytes, b: Bytes)
    requires |a| == |b| >= 2 && Covered(a) == Covered(b) && Stored(a) == Stored(b)
    ensures a == b
  {
    var n := |a| - 2;
    U16Bytes(a, n);
    U16Bytes(b, n);
    assert a == a[..n] + a[n..n + 2] && b == b[..n] + b[n..n + 2];
  }

  /** Damage confined to sixteen consecutive bits of the covered bytes is always caught. */
  lemma BurstDetected(frame: Bytes, damaged: Bytes, p: nat)
    requires DecodeFrame(frame).Ok?
    requires |damaged| == |frame| >= 2 && damaged != frame
    requires Stored(damaged) == Stored(frame)
    requires ChangedWithin(Covered(frame), Covered(damaged), p)
    ensures DecodeFrame(damaged).Err?
  {
    AcceptedIsIntact(frame);
    if Covered(frame) == Covered(damaged) {
      SameCoveredSameStored(frame, damaged);
    } else {
      BurstChangesCrc(Covered(frame), Covered(damaged), p);
      if DecodeFrame(damaged).Ok? {
        AcceptedIsIntact(damaged);
      }
    }
  }

  /** Any damage to the stored checksum alone is caught. */
  lemma ChecksumDamageDetected(frame: Bytes, damaged: Bytes)
    requires DecodeFrame(frame).Ok?
    requires |damaged| == |frame| >= 2 && damaged != frame
    requires Covered(damaged) == Covered(frame)
    ensures DecodeFrame(damaged).Err?
  {
    AcceptedIsIntact(frame);
    if DecodeFrame(damaged).Ok? {
      AcceptedIsIntact(damaged);
      SameCoveredSameStored(frame, damaged);
    }
  }

  /** Damage of every other shape, in particular one that straddles the covered bytes and
      the little-endian checksum, slips past the seal exactly when the stored word moved by
      what the damage to the covered bytes leaves in an empty register. */
  lemma SealSurvivesIff(frame: Bytes, damaged: Bytes)
    requires DecodeFrame(frame).Ok?
    requires |damaged| == |frame| >= 2
    ensures SealIntact(damaged) <==>
      Plus(RegisterOf(Stored(frame)), RegisterOf(Stored(damaged)))
      == Feed(ZERO, Xor(Bits(Covered(frame)), Bits(Covered(damaged))))
  {
    AcceptedIsIntact(frame);
    CrcDifference(Covered(frame), Covered(damaged));
    var c, d, s := RegisterOf(Crc(Covered(frame))), RegisterOf(Crc(Covered(damaged))),
                   RegisterOf(Stored(damaged));
    PlusCancel(c, d, s);
    if d == s {
      WordFromRegister(Crc(Covered(damaged)), Stored(damaged));
    }
  }

  lemma PlusCancel(c: Register, d: Register, s: Register)
    ensures Plus(c, s) == Plus(c, d) <==> s == d
  {
    if Plus(c, s) == Plus(c, d) {
      forall i | 0 <= i < 16
        ensures s[i] == d[i]
      {
        assert Plus(c, s)[i] == Plus(c, d)[i];
      }
    }
  }

  lemma WordFromRegister(x: u16, y: u16)
    requires RegisterOf(x) == RegisterOf(y)
    ensures x == y
  {
    Powers();
    NumberRoundTrip(x, 16);
    NumberRoundTrip(y, 16);
  }

  // ------------------------------------------------- odd damage, wherever in the frame it is

  lemma BitsJoin(a: Bytes, b: Bytes)
    ensures Bits(a + b) == Bits(a) + Bits(b)
  {
  }

  /** The stored checksum counts towards a frame's parity like the register it holds, whatever
      the order of its bytes. */
  lemma FrameParity(f: Bytes)
    requires |f| >= 2
    ensures Parity(Bits(f)) == (Parity(Bits(Covered(f))) != Parity(RegisterOf(Stored(f))))
  {
    var (n, lo, hi) := (|f| - 2, BitsOf(f[|f| - 2], 8), BitsOf(f[|f| - 1], 8));
    assert f == f[..n] + f[n..] && f[n..] == [f[n], f[n + 1]];
    BitsJoin(f[..n], f[n..]);
    assert Bits(f[n..]) == lo + hi;
    StoredRegister(f);
    hide Bits, BitsOf, RegisterOf;
    ParityAppend(Bits(f[..n]), lo + hi);
    ParityAppend(lo, hi);
    ParityAppend(hi, lo);
  }

  /** An odd number of flipped bits, anywhere in the frame and its checksum, is always caught. */
  lemma OddDamageDetected(frame: Bytes, damaged: Bytes)
    requires DecodeFrame(frame).Ok?
    requires |damaged| == |frame|
    requires Parity(Xor(Bits(frame), Bits(damaged)))
    ensures DecodeFrame(damaged).Err?
  {
    if DecodeFrame(damaged).Ok? {
      AcceptedIsIntact(frame);
      AcceptedIsIntact(damaged);
      SealSurvivesIff(frame, damaged);
      hide DecodeFrame, SealIntact, Bits, RegisterOf, Feed;
      var (cf, cd) := (Bits(Covered(frame)), Bits(Covered(damaged)));
      var (rf, rd) := (RegisterOf(Stored(frame)), RegisterOf(Stored(damaged)));
      ParityXor(Bits(frame), Bits(damaged));
      FrameParity(frame);
      FrameParity(damaged);
      ParityXor(cf, cd);
      PlusParity(rf, rd);
      FeedParity(ZERO, Xor(cf, cd));
      ZeroParity();
    }
  }

  // ---------------------------------------------------- one, two or three bits, wherever they are

  /** The bits of a frame in the order of the register: the stored checksum high byte first. */
  function Codeword(f: Bytes): seq<bool>
    requires |f| >= 2
  {
    Bits(Covered(f)) + RegisterOf(Stored(f))
  }

  /** The checksum passes exactly when the damage, as one stream, leaves nothing in the register. */
  lemma SealSurvivesStream(frame: Bytes, damaged: Bytes)
    requires DecodeFrame(frame).Ok?
    requires |damaged| == |frame| >= 2
    ensures SealIntact(damaged) <==> Feed(ZERO, Xor(Codeword(frame), Codeword(damaged))) == ZERO
  {
    SealSurvivesIff(frame, damaged);
    hide SealIntact, DecodeFrame, Bits, RegisterOf, Feed, StepN;
    var (a, b) := (Bits(Covered(frame)), Bits(Covered(damaged)));
    var (x, y) := (RegisterOf(Stored(frame)), RegisterOf(Stored(damaged)));
    XorJoins(a, b, x, y);
    var r := Feed(ZERO, Xor(a, b));
    FeedAppend(ZERO, Xor(a, b), Xor(x, y));
    FeedPad(r, Xor(x, y));
    assert Pad(Xor(x, y)) == Plus(x, y);
    PlusIsZero(r, Plus(x, y));
    StepNZero(16);
    if StepN(Plus(r, Plus(x, y)), 16) == ZERO {
      StepNKernel(Plus(r, Plus(x, y)), 16);
    }
  }

  lemma XorJoins(a: seq<bool>, b: seq<bool>, x: seq<bool>, y: seq<bool>)
    requires |a| == |b| && |x| == |y|
    ensures Xor(a + x, b + y) == Xor(a, b) + Xor(x, y)
  {
  }

  /** How many bits are set. */
  function Flips(bits: seq<bool>): nat
    decreases |bits|
  {
    if bits == [] then 0 else Flips(bits[1..]) + (if bits[0] then 1 else 0)
  }

  lemma {:induction false} FlipsJoin(a: seq<bool>, b: seq<bool>)
    ensures Flips(a + b) == Flips(a) + Flips(b)
    decreases |a|
  {
    if a == [] {
      assert a + b == b;
    } else {
      assert (a + b)[1..] == a[1..] + b;
      FlipsJoin(a[1..], b);
    }
  }

  lemma {:induction false} FlipsParity(bits: seq<bool>)
    ensures Parity(bits) <==> Flips(bits) % 2 == 1
    decreases |bits|
  {
    if bits != [] {
      FlipsParity(bits[1..]);
    }
  }

  lemma {:induction false} NoFlips(bits: seq<bool>)
    requires Flips(bits) == 0
    ensures forall i :: 0 <= i < |bits| ==> !bits[i]
    decreases |bits|
  {
    if bits != [] {
      NoFlips(bits[1..]);
    }
  }

  lemma {:induction false} OneFlip(bits: seq<bool>) returns (p: nat)
    requires Flips(bits) == 1
    ensures p < |bits| && forall i :: 0 <= i < |bits| ==> (bits[i] <==> i == p)
    decreases |bits|
  {
    if bits[0] {
      NoFlips(bits[1..]);
      p := 0;
    } else {
      p := OneFlip(bits[1..]);
      p := p + 1;
    }
  }

  lemma {:induction false} TwoFlips(bits: seq<bool>) returns (p: nat, q: nat)
    requires Flips(bits) == 2
    ensures p < q < |bits| && forall i :: 0 <= i < |bits| ==> (bits[i] <==> i == p || i == q)
    decreases |bits|
  {
    if bits[0] {
      q := OneFlip(bits[1..]);
      p, q := 0, q + 1;
    } else {
      p, q := TwoFlips(bits[1..]);
      p, q := p + 1, q + 1;
    }
  }

  lemma FrameBits(f: Bytes)
    requires |f| >= 2
    ensures Bits(f) == Bits(Covered(f)) + (BitsOf(f[|f| - 2], 8) + BitsOf(f[|f| - 1], 8))
  {
    var n := |f| - 2;
    assert f == f[..n] + f[n..] && f[n..] == [f[n], f[n + 1]];
    BitsJoin(f[..n], f[n..]);
    assert Bits(f[n..]) == BitsOf(f[n], 8) + BitsOf(f[n + 1], 8);
  }

  /** The order of the checksum's bytes does not change how many bits differ. */
  lemma SameFlips(f: Bytes, g: Bytes)
    requires |f| == |g| >= 2
    ensures Flips(Xor(Codeword(f), Codeword(g))) == Flips(Xor(Bits(f), Bits(g)))
  {
    hide Bits, BitsOf, RegisterOf, Flips;
    var n := |f| - 2;
    var (fl, fh, gl, gh) := (BitsOf(f[n], 8), BitsOf(f[n + 1], 8), BitsOf(g[n], 8), BitsOf(g[n + 1], 8));
    var (a, b) := (Bits(Covered(f)), Bits(Covered(g)));
    FrameBits(f);
    FrameBits(g);
    StoredRegister(f);
    StoredRegister(g);
    XorJoins(a, b, fl + fh, gl + gh);
    XorJoins(a, b, fh + fl, gh + gl);
    XorJoins(fl, gl, fh, gh);
    XorJoins(fh, gh, fl, gl);
    FlipsJoin(Xor(a, b), Xor(fl, gl) + Xor(fh, gh));
    FlipsJoin(Xor(a, b), Xor(fh, gh) + Xor(fl, gl));
    FlipsJoin(Xor(fl, gl), Xor(fh, gh));
    FlipsJoin(Xor(fh, gh), Xor(fl, gl));
  }

  lemma AcceptedIsShort(f: Bytes)
    requires DecodeFrame(f).Ok?
    ensures 2 <= |f| <= MAX_FRAME_LEN
  {
  }

  /** One, two or three flipped bits, anywhere in the frame and its checksum, are always caught. */
  lemma FewFlipsDetected(frame: Bytes, damaged: Bytes)
    requires DecodeFrame(frame).Ok?
    requires |damaged| == |frame|
    requires 1 <= Flips(Xor(Bits(frame), Bits(damaged))) <= 3
    ensures DecodeFrame(damaged).Err?
  {
    AcceptedIsShort(frame);
    FlipsParity(Xor(Bits(frame), Bits(damaged)));
    if Flips(Xor(Bits(frame), Bits(damaged))) != 2 {
      OddDamageDetected(frame, damaged);
    } else if DecodeFrame(damaged).Ok? {
      AcceptedIsIntact(damaged);
      hide DecodeFrame, SealIntact, Bits, RegisterOf, Feed;
      SealSurvivesStream(frame, damaged);
      SameFlips(frame, damaged);
      var error := Xor(Codeword(frame), Codeword(damaged));
      var p, q := TwoFlips(error);
      assert |error| <= 272;
      TwoBitsLeaveTrace(error, p, q);
    }
  }

  // ------------------------------------------- a burst across the boundary that is not seen

  /** `b ^ mask` on bytes, the mask given by its bits. */
  function Flip(b: u8, mask: seq<bool>): u8
    requires |mask| == 8
  {
    BitsRoundTrip(Xor(BitsOf(b, 8), mask));
    Powers();
    NumberOf(Xor(BitsOf(b, 8), mask))
  }

  lemma FlippedBits(b: u8, mask: seq<bool>)
    requires |mask| == 8
    ensures BitsOf(Flip(b, mask), 8) == Xor(BitsOf(b, 8), mask)
  {
    BitsRoundTrip(Xor(BitsOf(b, 8), mask));
  }

  lemma StoredRegister(bytes: Bytes)
    requires |bytes| >= 2
    ensures RegisterOf(Stored(bytes)) == BitsOf(bytes[|bytes| - 1], 8) + BitsOf(bytes[|bytes| - 2], 8)
  {
    Powers();
    BitsSplit(bytes[|bytes| - 1], bytes[|bytes| - 2], 8, 8);
  }

  /** The bits of 0x89 and of 0xA1. */
  const MASK_89: seq<bool> := [true, false, false, false, true, false, false, true]
  const MASK_A1: seq<bool> := [true, false, true, false, false, false, false, true]
  const QUIET_BYTE: seq<bool> := seq(8, _ => false)

  lemma FirstTurn()
    ensures Step(Pad(MASK_89)) == seq(16, i => i == 6 || i == 10 || i == 15)
  {
  }

  lemma LastTurn()
    ensures Step(seq(16, i => i == 0 || i == 4 || i == 9)) == QUIET_BYTE + MASK_A1
  {
  }

  /** Between the first and the last of its eight turns the mask only shifts. */
  lemma TraceOf89()
    ensures StepN(Pad(MASK_89), 8) == QUIET_BYTE + MASK_A1
  {
    FirstTurn();
    LastTurn();
    var r1 := Step(Pad(MASK_89));
    FreeShift(r1, 6);
    assert StepN(r1, 6) == seq(16, i => i == 0 || i == 4 || i == 9);
    StepNAppend(r1, 6, 1);
  }

  lemma StatusByte(f: Bytes, g: Bytes)
    requires |f| == |g| == 34 && U16At(f, 30) == U16At(g, 30)
    ensures f[31] == g[31]
  {
  }

  /** Flipping the mask 0x89 in the last payload byte and 0xA1 in the low checksum byte of
      any encoded sample spans sixteen consecutive bits, and is accepted as a sample with
      another status: the burst guarantee stops at the checksum's boundary. */
  lemma StraddlingBurstAccepted(sequence: u8, s: ImuSample)
    ensures var f := EncodeSample(sequence, s);
            var g := f[31 := Flip(f[31], MASK_89)][32 := Flip(f[32], MASK_A1)];
            DecodeFrame(g) == Ok(SampleFrame(sequence, SampleAt(g))) && SampleAt(g) != s
  {
    var f := EncodeSample(sequence, s);
    var g := f[31 := Flip(f[31], MASK_89)][32 := Flip(f[32], MASK_A1)];
    SampleRoundTrip(sequence, s);
    SampleLayout(sequence, s, Le16(Crc(SampleBody(sequence, s))));
    FlippedBits(f[31], MASK_89);
    FlippedBits(f[32], MASK_A1);
    assert BitsOf(g[31], 8)[0] != BitsOf(f[31], 8)[0];
    hide DecodeFrame, Feed, Bits, BitsOf, Flip, EncodeSample, SampleBody, SealIntact, RegisterOf;
    CoveredTrace(f, g);
    StoredTrace(f, g);
    SealSurvivesIff(f, g);
    HeaderKept(sequence, s, g);
    if SampleAt(g) == s {
      StatusByte(f, g);
    }
  }

  lemma CoveredDifference(f: Bytes, g: Bytes)
    requires |f| == |g| == 34
    requires forall i :: 0 <= i < 31 ==> g[i] == f[i]
    requires BitsOf(g[31], 8) == Xor(BitsOf(f[31], 8), MASK_89)
    ensures Xor(Bits(Covered(f)), Bits(Covered(g))) == seq(248, _ => false) + MASK_89
  {
    var e := Xor(Bits(Covered(f)), Bits(Covered(g)));
    forall k | 0 <= k < 256
      ensures e[k] == (seq(248, _ => false) + MASK_89)[k]
    {
      var i, j := k / 8, k % 8;
      assert e[k] == (BitsOf(f[i], 8)[j] != BitsOf(g[i], 8)[j]);
    }
  }

  lemma CoveredTrace(f: Bytes, g: Bytes)
    requires |f| == |g| == 34
    requires forall i :: 0 <= i < 31 ==> g[i] == f[i]
    requires BitsOf(g[31], 8) == Xor(BitsOf(f[31], 8), MASK_89)
    ensures Feed(ZERO, Xor(Bits(Covered(f)), Bits(Covered(g)))) == QUIET_BYTE + MASK_A1
  {
    CoveredDifference(f, g);
    MaskAtTheEnd(248, MASK_89);
    TraceOf89();
  }

  lemma MaskAtTheEnd(n: nat, mask: seq<bool>)
    requires |mask| == 8
    ensures Feed(ZERO, seq(n, _ => false) + mask) == StepN(Pad(mask), 8)
  {
    var quiet := seq(n, _ => false);
    FeedAppend(ZERO, quiet, mask);
    FeedZeros(ZERO, quiet);
    StepNZero(n);
    FeedPad(ZERO, mask);
    assert Plus(ZERO, Pad(mask)) == Pad(mask);
  }

  lemma StoredTrace(f: Bytes, g: Bytes)
    requires |f| == |g| == 34 && f[33] == g[33]
    requires BitsOf(g[32], 8) == Xor(BitsOf(f[32], 8), MASK_A1)
    ensures Plus(RegisterOf(Stored(f)), RegisterOf(Stored(g))) == QUIET_BYTE + MASK_A1
  {
    StoredRegister(f);
    StoredRegister(g);
  }

  lemma HeaderKept(sequence: u8, s: ImuSample, g: Bytes)
    requires |g| == 34 && SealIntact(g)
    requires forall i :: 0 <= i < 6 ==> g[i] == EncodeSample(sequence, s)[i]
    ensures DecodeFrame(g) == Ok(SampleFrame(sequence, SampleAt(g)))
    ensures g[..6] == Header(ImuSampleKind, 26, g[5]) && g[5] == sequence
  {
    SampleHeader(sequence, s);
    forall i | 0 <= i < 6
      ensures g[i] == Header(ImuSampleKind, 26, sequence)[i]
    {
      assert g[i] == SampleBody(sequence, s)[..6][i];
    }
  }

  // ------------------------------------------------------------- four bits can go unseen

  /** The bits of 0x01, of 0x10 and of 0x21: together the generator, ending on a byte. */
  const MASK_01: seq<bool> := [false, false, false, false, false, false, false, true]
  const MASK_10: seq<bool> := [false, false, false, true, false, false, false, false]
  const MASK_21: seq<bool> := [false, false, true, false, false, false, false, true]

  function FlipFour(f: Bytes): Bytes
    requires |f| == 34
  {
    f[29 := Flip(f[29], MASK_01)][30 := Flip(f[30], MASK_10)][31 := Flip(f[31], MASK_21)]
  }

  lemma FourDifference(f: Bytes)
    requires |f| == 34
    ensures Xor(Bits(Covered(f)), Bits(Covered(FlipFour(f))))
         == seq(232, _ => false) + (MASK_01 + MASK_10 + MASK_21)
  {
    hide FlipFour, Flip, Bits, BitsOf, MASK_01, MASK_10, MASK_21;
    FourFlipped(f);
    FlippedXor(f[29], MASK_01);
    FlippedXor(f[30], MASK_10);
    FlippedXor(f[31], MASK_21);
    LastThree(f, FlipFour(f));
  }

  lemma FourFlipped(f: Bytes)
    requires |f| == 34
    ensures |MASK_01| == |MASK_10| == |MASK_21| == 8
    ensures var g := FlipFour(f);
            && |g| == 34 && (forall i :: 0 <= i < 29 ==> g[i] == f[i])
            && g[29] == Flip(f[29], MASK_01) && g[30] == Flip(f[30], MASK_10) && g[31] == Flip(f[31], MASK_21)
  {
    hide Flip;
  }

  lemma FlippedXor(b: u8, mask: seq<bool>)
    requires |mask| == 8
    ensures Xor(BitsOf(b, 8), BitsOf(Flip(b, mask), 8)) == mask
  {
    FlippedBits(b, mask);
    hide Flip, BitsOf;
  }

  /** What the last three covered bytes differ in is what the covered bytes differ in. */
  lemma LastThree(f: Bytes, g: Bytes)
    requires |f| == |g| == 34 && forall i :: 0 <= i < 29 ==> g[i] == f[i]
    ensures Xor(Bits(Covered(f)), Bits(Covered(g)))
         == seq(232, _ => false)
            + (Xor(BitsOf(f[29], 8), BitsOf(g[29], 8)) + Xor(BitsOf(f[30], 8), BitsOf(g[30], 8))
               + Xor(BitsOf(f[31], 8), BitsOf(g[31], 8)))
  {
    hide BitsOf, Bits;
    assert f[..29] == g[..29];
    ThreeMore(f);
    ThreeMore(g);
    var same := Bits(f[..29]);
    assert Xor(same, same) == seq(232, _ => false);
    XorJoins(same, same, BitsOf(f[29], 8) + BitsOf(f[30], 8) + BitsOf(f[31], 8),
             BitsOf(g[29], 8) + BitsOf(g[30], 8) + BitsOf(g[31], 8));
    XorJoins(BitsOf(f[29], 8) + BitsOf(f[30], 8), BitsOf(g[29], 8) + BitsOf(g[30], 8),
             BitsOf(f[31], 8), BitsOf(g[31], 8));
    XorJoins(BitsOf(f[29], 8), BitsOf(g[29], 8), BitsOf(f[30], 8), BitsOf(g[30], 8));
  }

  lemma ThreeMore(f: Bytes)
    requires |f| == 34
    ensures Bits(Covered(f)) == Bits(f[..29]) + (BitsOf(f[29], 8) + BitsOf(f[30], 8) + BitsOf(f[31], 8))
  {
    BitsSnoc(f[..32]);
    BitsSnoc(f[..31]);
    BitsSnoc(f[..30]);
    hide Bits, BitsOf;
    assert f[..32][..31] == f[..31] && f[..31][..30] == f[..30] && f[..30][..29] == f[..29];
    var (a, x, y, z) := (Bits(f[..29]), BitsOf(f[29], 8), BitsOf(f[30], 8), BitsOf(f[31], 8));
    assert a + x + y + z == a + (x + y + z);
  }

  lemma GeneratorVanishes()
    ensures Feed(ZERO, seq(232, _ => false) + (MASK_01 + MASK_10 + MASK_21)) == ZERO
  {
    hide StepN, Feed;
    var quiet := seq(239, _ => false);
    assert seq(232, _ => false) + (MASK_01 + MASK_10 + MASK_21) == (quiet + [true]) + (MASK_10 + MASK_21);
    FeedAppend(ZERO, quiet + [true], MASK_10 + MASK_21);
    LoneBitFed(quiet + [true], 239);
    TopFallsBack();
    FeedPad(Step(Top(true)), MASK_10 + MASK_21);
    assert Pad(MASK_10 + MASK_21) == MASK_10 + MASK_21;
    PlusIsZero(Step(Top(true)), MASK_10 + MASK_21);
    StepNZero(16);
  }

  lemma TopFallsBack()
    ensures StepN(Top(true), 1) == Step(Top(true)) == MASK_10 + MASK_21
  {
    assert StepN(Top(true), 1) == StepN(Step(Top(true)), 0);
  }

  /** Three is the most that is always noticed: flipping four bits of any encoded sample, in the
      shape of the generator, gives another sample that is accepted. */
  lemma FourFlipsAccepted(sequence: u8, s: ImuSample)
    ensures var f := EncodeSample(sequence, s);
            var g := FlipFour(f);
            && Flips(Xor(Bits(f), Bits(g))) == 4
            && DecodeFrame(g) == Ok(SampleFrame(sequence, SampleAt(g))) && SampleAt(g) != s
  {
    var f := EncodeSample(sequence, s);
    var g := FlipFour(f);
    FourMoved(f);
    SampleRoundTrip(sequence, s);
    SampleLayout(sequence, s, Le16(Crc(SampleBody(sequence, s))));
    hide DecodeFrame, Feed, Flips, FlipFour, Bits, BitsOf, EncodeSample, SampleBody;
    FourDifference(f);
    GeneratorVanishes();
    FourAreFour(f);
    PlusIsZero(RegisterOf(Stored(f)), RegisterOf(Stored(g)));
    SealSurvivesIff(f, g);
    HeaderKept(sequence, s, g);
    if SampleAt(g) == s {
      StatusByte(f, g);
    }
  }

  lemma FourMoved(f: Bytes)
    requires |f| == 34
    ensures var g := FlipFour(f);
            && |g| == 34 && Stored(g) == Stored(f) && g[31] != f[31] && g[32] == f[32] && g[33] == f[33]
            && forall i :: 0 <= i < 29 ==> g[i] == f[i]
  {
    FlippedBits(f[31], MASK_21);
    assert BitsOf(Flip(f[31], MASK_21), 8)[7] != BitsOf(f[31], 8)[7];
  }

  lemma FourAreFour(f: Bytes)
    requires |f| == 34
    ensures Flips(Xor(Bits(f), Bits(FlipFour(f)))) == 4
  {
    var g := FlipFour(f);
    FourMoved(f);
    FourDifference(f);
    hide FlipFour, Bits, BitsOf, Flips;
    var n := 32;
    FrameBits(f);
    FrameBits(g);
    var (fc, stored) := (Bits(Covered(f)), BitsOf(f[n], 8) + BitsOf(f[n + 1], 8));
    XorJoins(fc, Bits(Covered(g)), stored, stored);
    FlipsJoin(Xor(fc, Bits(Covered(g))), Xor(stored, stored));
    QuietFlips(Xor(stored, stored));
    GeneratorFlips(232);
  }

  lemma GeneratorFlips(n: nat)
    ensures Flips(seq(n, _ => false) + (MASK_01 + MASK_10 + MASK_21)) == 4
  {
    hide Flips, MASK_01, MASK_10, MASK_21;
    FlipsJoin(seq(n, _ => false), MASK_01 + MASK_10 + MASK_21);
    FlipsJoin(MASK_01 + MASK_10, MASK_21);
    FlipsJoin(MASK_01, MASK_10);
    QuietFlips(seq(n, _ => false));
    MaskFlips();
  }

  lemma {:induction false} QuietFlips(bits: seq<bool>)
    requires forall i :: 0 <= i < |bits| ==> !bits[i]
    ensures Flips(bits) == 0
    decreases |bits|
  {
    if bits != [] {
      QuietFlips(bits[1..]);
    }
  }

  lemma MaskFlips()
    ensures Flips(MASK_01) == 1 && Flips(MASK_10) == 1 && Flips(MASK_21) == 2
  {
    hide Flips;
    LoneFlip(seq(7, _ => false), []);
    LoneFlip(seq(3, _ => false), seq(4, _ => false));
    LoneFlip(seq(2, _ => false), seq(4, _ => false));
    assert MASK_01 == seq(7, _ => false) + [true] + [];
    assert MASK_10 == seq(3, _ => false) + [true] + seq(4, _ => false);
    assert MASK_21 == (seq(2, _ => false) + [true] + seq(4, _ => false)) + [true];
    FlipsJoin(seq(2, _ => false) + [true] + seq(4, _ => false), [true]);
    LoneFlip([], []);
    assert [] + [true] + [] == [true];
  }

  lemma LoneFlip(before: seq<bool>, after: seq<bool>)
    requires (forall i :: 0 <= i < |before| ==> !before[i]) && forall i :: 0 <= i < |after| ==> !after[i]
    ensures Flips(before + [true] + after) == 1
  {
    FlipsJoin(before + [true], after);
    FlipsJoin(before, [true]);
    QuietFlips(before);
    QuietFlips(after);
  }
}
