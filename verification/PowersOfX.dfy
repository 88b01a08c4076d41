/** The powers of x modulo the generator, sixteen turns of the register at a time: none of them up
    to x^272 is a lone bit, so that no two bits of a frame can cancel. */
module PowersOfX {
  import opened ShiftRegister

  /** A register bit by bit, so that its turns can be computed. */
  datatype Word = Word(
    a: bool, b: bool, c: bool, d: bool, e: bool, f: bool, g: bool, h: bool,
    i: bool, j: bool, k: bool, l: bool, m: bool, n: bool, o: bool, p: bool)

  function WordOf(r: Register): Word {
    Word(r[0], r[1], r[2], r[3], r[4], r[5], r[6], r[7], r[8], r[9], r[10], r[11], r[12], r[13], r[14], r[15])
  }

  function OneTurn(w: Word): Word {
    Word(w.b, w.c, w.d, w.e != w.a, w.f, w.g, w.h, w.i, w.j, w.k, w.l != w.a, w.m, w.n, w.o, w.p, w.a)
  }

  /** In four turns the four leading bits come out, and each falls back on the three taps. */
  function FourTurns(w: Word): Word {
    Word(w.e != w.a, w.f != w.b, w.g != w.c, w.h != w.d, w.i, w.j, w.k, w.l != w.a,
         w.m != w.b, w.n != w.c, w.o != w.d, w.p, w.a, w.b, w.c, w.d)
  }

  function SixteenTurns(w: Word): Word { FourTurns(FourTurns(FourTurns(FourTurns(w)))) }

  lemma StepIsTurn(r: Register)
    ensures WordOf(Step(r)) == OneTurn(WordOf(r))
  {
  }

  lemma TurnsAreFour(w: Word)
    ensures OneTurn(OneTurn(OneTurn(OneTurn(w)))) == FourTurns(w)
  {
  }

  lemma FourSteps(r: Register)
    ensures WordOf(StepN(r, 4)) == FourTurns(WordOf(r))
  {
    hide Step, WordOf, OneTurn, FourTurns;
    StepIsTurn(r);
    StepIsTurn(Step(r));
    StepIsTurn(Step(Step(r)));
    StepIsTurn(Step(Step(Step(r))));
    TurnsAreFour(WordOf(r));
    assert StepN(r, 4) == Step(Step(Step(Step(r))));
  }

  lemma SixteenSteps(r: Register)
    ensures WordOf(StepN(r, 16)) == SixteenTurns(WordOf(r))
  {
    hide StepN, FourTurns, WordOf;
    StepNAppend(r, 4, 12);
    StepNAppend(StepN(r, 4), 4, 8);
    StepNAppend(StepN(StepN(r, 4), 4), 4, 4);
    FourSteps(r);
    FourSteps(StepN(r, 4));
    FourSteps(StepN(StepN(r, 4), 4));
    FourSteps(StepN(StepN(StepN(r, 4), 4), 4));
  }

  // ------------------------------------------------------------------------- the powers

  function One(b: bool): nat { if b then 1 else 0 }

  function Ones(w: Word): nat {
    One(w.a) + One(w.b) + One(w.c) + One(w.d) + One(w.e) + One(w.f) + One(w.g) + One(w.h)
    + One(w.i) + One(w.j) + One(w.k) + One(w.l) + One(w.m) + One(w.n) + One(w.o) + One(w.p)
  }

  /** x^0, x^64, x^128, x^192 and x^256. */
  const X0 := Word(false, false, false, false, false, false, false, false,
         false, false, false, false, false, false, false, true)
  const X64 := Word(true, false, true, true, true, false, false, false,
         false, true, true, false, false, false, false, true)
  const X128 := Word(true, false, true, false, true, true, true, false,
         true, true, true, true, true, true, false, false)
  const X192 := Word(false, true, true, false, false, true, false, true,
         false, false, false, false, true, false, true, true)
  const X256 := Word(true, false, false, false, true, true, true, false,
         false, false, true, false, true, false, false, true)

  /** Two and more bits are set in the next three multiples of sixteen. */
  predicate Mixed(from: Word) {
    var x1 := SixteenTurns(from);
    var x2 := SixteenTurns(x1);
    Ones(x1) >= 2 && Ones(x2) >= 2 && Ones(SixteenTurns(x2)) >= 2
  }

  function NextCheckpoint(from: Word): Word { SixteenTurns(SixteenTurns(SixteenTurns(SixteenTurns(from)))) }

  lemma To64()
    ensures NextCheckpoint(X0) == X64
  {
  }

  lemma To128()
    ensures NextCheckpoint(X64) == X128
  {
  }

  lemma To192()
    ensures NextCheckpoint(X128) == X192
  {
  }

  lemma To256()
    ensures NextCheckpoint(X192) == X256
  {
  }

  lemma From0()
    ensures Mixed(X0)
  {
  }

  lemma From64()
    ensures Ones(X64) >= 2 && Mixed(X64)
  {
  }

  lemma From128()
    ensures Ones(X128) >= 2 && Mixed(X128)
  {
  }

  lemma From192()
    ensures Ones(X192) >= 2 && Mixed(X192)
  {
  }

  lemma From256()
    ensures Ones(X256) >= 2 && Ones(SixteenTurns(X256)) >= 2
  {
  }

  function Iterated<T>(f: T -> T, start: T, k: nat): T {
    if k == 0 then start else f(Iterated(f, start, k - 1))
  }

  lemma FourIterations<T>(f: T -> T, start: T, k: nat)
    ensures var x := Iterated(f, start, k);
            && Iterated(f, start, k + 1) == f(x) && Iterated(f, start, k + 2) == f(f(x))
            && Iterated(f, start, k + 3) == f(f(f(x))) && Iterated(f, start, k + 4) == f(f(f(f(x))))
  {
    assert Iterated(f, start, k + 2) == f(Iterated(f, start, k + 1));
    assert Iterated(f, start, k + 3) == f(Iterated(f, start, k + 2));
  }

  /** x^(16 k). */
  function PowerOf(k: nat): Word { Iterated(SixteenTurns, X0, k) }

  lemma NeverLone(k: nat)
    requires 1 <= k <= 17
    ensures Ones(PowerOf(k)) >= 2
  {
    hide SixteenTurns, Ones, X0, X64, X128, X192, X256;
    FourIterations(SixteenTurns, X0, 0);
    From0();
    To64();
    FourIterations(SixteenTurns, X0, 4);
    From64();
    To128();
    FourIterations(SixteenTurns, X0, 8);
    From128();
    To192();
    FourIterations(SixteenTurns, X0, 12);
    From192();
    To256();
    FourIterations(SixteenTurns, X0, 16);
    From256();
  }

  // ----------------------------------------------------------------------- two lone bits

  /** x^0. */
  const UNIT: Register :=
    [false, false, false, false,
     false, false, false, false,
     false, false, false, false,
     false, false, false, true]

  lemma {:induction false} PowerIsTurned(k: nat)
    ensures WordOf(StepN(UNIT, 16 * k)) == PowerOf(k)
    decreases k
  {
    hide WordOf, SixteenTurns, UNIT;
    if k == 0 {
      UnitWord();
    } else {
      PowerIsTurned(k - 1);
      StepNAppend(UNIT, 16 * (k - 1), 16);
      SixteenSteps(StepN(UNIT, 16 * (k - 1)));
    }
  }

  lemma UnitWord()
    ensures WordOf(StepN(UNIT, 0)) == PowerOf(0)
  {
  }

  /** For fifteen turns the lone bit only moves up. */
  lemma LoneBit(j: nat)
    requires j < 16
    ensures StepN(UNIT, j) == seq(16, i => i == 15 - j)
    ensures Ones(WordOf(StepN(UNIT, j))) == 1
  {
    UnitMoves(j);
    hide StepN, WordOf, Ones, UNIT;
    OneOfSixteen(j);
  }

  lemma UnitMoves(j: nat)
    requires j < 16
    ensures StepN(UNIT, j) == seq(16, i => i == 15 - j)
  {
    hide StepN;
    assert forall i :: 0 <= i < 16 ==> (UNIT[i] <==> i == 15);
    FreeShift(UNIT, j);
  }

  lemma OneOfSixteen(j: nat)
    requires j < 16
    ensures Ones(WordOf(seq(16, i => i == 15 - j))) == 1
  {
  }

  /** The bit does not come back in 272 turns. */
  lemma NoReturn(n: nat)
    requires 1 <= n <= 272
    ensures StepN(UNIT, n) != UNIT
  {
    hide StepN, WordOf, Ones, UNIT, PowerOf;
    var k := (n + 15) / 16;
    var j := 16 * k - n;
    StepNAppend(UNIT, n, j);
    PowerIsTurned(k);
    NeverLone(k);
    LoneBit(j);
  }

  lemma StepNInjective(x: Register, y: Register, n: nat)
    requires StepN(x, n) == StepN(y, n)
    ensures x == y
  {
    hide StepN;
    StepNLinear(x, y, n);
    PlusSelf(StepN(x, n));
    StepNKernel(Plus(x, y), n);
    PlusIsZero(x, y);
  }

  lemma PlusSelf(x: Register)
    ensures Plus(x, x) == ZERO
  {
  }

  lemma PlusIsZero(x: Register, y: Register)
    ensures Plus(x, y) == ZERO <==> x == y
  {
    PlusSelf(x);
    if Plus(x, y) == ZERO {
      forall i | 0 <= i < 16
        ensures x[i] == y[i]
      {
        assert !Plus(x, y)[i];
      }
    }
  }

  /** Neither does the bit that has just come in. */
  lemma TopDoesNotReturn(n: nat)
    requires 1 <= n <= 272
    ensures StepN(Top(true), n) != Top(true)
  {
    hide StepN, UNIT;
    LoneBit(15);
    assert Top(true) == seq(16, i => i == 15 - 15);
    if StepN(Top(true), n) == Top(true) {
      StepNAppend(UNIT, 15, n);
      StepNAppend(UNIT, n, 15);
      StepNInjective(StepN(UNIT, n), UNIT, 15);
      NoReturn(n);
    }
  }

  /** A lone bit of a stream, and what comes after it. */
  lemma LoneBitFed(bits: seq<bool>, p: nat)
    requires p < |bits| && forall i :: 0 <= i < |bits| ==> (bits[i] <==> i == p)
    ensures Feed(ZERO, bits) == StepN(Top(true), |bits| - p)
  {
    hide StepN, Feed;
    FeedWindow(bits, p, p + 1);
    assert bits[p..p + 1] == [true];
    assert Pad([true]) == Top(true);
    StepNAppend(Top(true), 1, |bits| - p - 1);
  }

  lemma BitThenQuiet(r: Register, bits: seq<bool>)
    requires bits != [] && forall i :: 0 <= i < |bits| ==> (bits[i] <==> i == 0)
    ensures Feed(r, bits) == StepN(Plus(r, Top(true)), |bits|)
  {
    FeedZeros(Step(Plus(r, Top(true))), bits[1..]);
  }

  /** Two set bits of a stream, less than 273 apart, always leave a trace. */
  lemma TwoBitsLeaveTrace(error: seq<bool>, p: nat, q: nat)
    requires p < q < |error| && q - p <= 272
    requires forall i :: 0 <= i < |error| ==> (error[i] <==> i == p || i == q)
    ensures Feed(ZERO, error) != ZERO
  {
    hide StepN, Feed, Step, Top;
    var (first, rest) := (error[..q], error[q..]);
    assert error == first + rest;
    FeedAppend(ZERO, first, rest);
    LoneBitFed(first, p);
    var r := StepN(Top(true), q - p);
    BitThenQuiet(r, rest);
    if Feed(ZERO, error) == ZERO {
      StepNKernel(Plus(r, Top(true)), |rest|);
      PlusIsZero(r, Top(true));
      TopDoesNotReturn(q - p);
    }
  }
}
