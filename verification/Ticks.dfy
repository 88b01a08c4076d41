/** Servo ticks and semantic degrees: rounding, clamping, calibrated zero references and the
    round trips between the two units. `f32` arithmetic is taken as exact. */
module Ticks {
  import opened Results
  import opened Words
  import opened Reals

  type Sign = s: int | s == 1 || s == -1 witness 1

  const MAX_TICK: u16 := 4095

  /** Rust's `round`: to the nearest integer, halves away from zero. */
  function Round(x: real): int {
    if x >= 0.0 then (x + 0.5).Floor else -(0.5 - x).Floor
  }

  function ClampTick(n: int): u16 {
    if n < 0 then 0 else if n > 4095 then 4095 else n
  }

  function OffsetTicks(start: u16, delta: int): u16 { ClampTick(start + delta) }

  function TickOf(x: real): u16 { ClampTick(Round(x)) }

  /** A cast of a whole `f32` to `i32`, which saturates. */
  function AsI32(n: int): i32 {
    if n < -0x8000_0000 then -0x8000_0000 else if n > 0x7FFF_FFFF then 0x7FFF_FFFF else n
  }

  predicate Half(x: real) { x - x.Floor as real == 0.5 }

  // ------------------------------------------------------------------------- rounding

  lemma FloorUnique(x: real, n: int)
    requires n as real <= x < n as real + 1.0
    ensures x.Floor == n
  {
  }

  /** `Round` is a nearest integer, and of two nearest the one further from zero. */
  lemma RoundNearest(x: real)
    ensures Distance(Round(x) as real, x) <= 0.5
    ensures Distance(Round(x) as real, x) == 0.5 ==> (Round(x) as real > x <==> x >= 0.0)
  {
  }

  lemma RoundUnique(x: real, n: int)
    requires Distance(n as real, x) < 0.5
    ensures Round(x) == n
  {
    RoundNearest(x);
    var r := Round(x);
    assert -1 < r - n < 1;
  }

  lemma RoundMonotone(x: real, y: real)
    requires x <= y
    ensures Round(x) <= Round(y)
  {
    if x < 0.0 && y < 0.0 {
      FloorMonotone(0.5 - y, 0.5 - x);
    } else if x >= 0.0 {
      FloorMonotone(x + 0.5, y + 0.5);
    }
  }

  lemma FloorMonotone(x: real, y: real)
    requires x <= y
    ensures x.Floor <= y.Floor
  {
  }

  /** Commands move by at most one tick more than the exact positions do. */
  lemma TickOfSpread(x: real, y: real)
    ensures Distance(TickOf(x) as real, TickOf(y) as real) <= Distance(x, y) + 1.0
  {
    RoundNearest(x);
    RoundNearest(y);
    ClampShrinks(Round(x), Round(y));
  }

  lemma ClampShrinks(m: int, n: int)
    ensures Distance(ClampTick(m) as real, ClampTick(n) as real) <= Distance(m as real, n as real)
  {
  }

  // ------------------------------------------------------------ the core crate's integers

  function SemanticDegreesToTicks(reference: u16, sign: Sign, degrees: real): u16 {
    TickOf(reference as real + degrees * 4096.0 / 360.0 * sign as real)
  }

  function TicksToSemanticDeg(reference: u16, sign: Sign, ticks: u16): real {
    (ticks - reference) as real * 360.0 / 4096.0 / sign as real
  }

  lemma CoreRoundTrip(reference: u16, sign: Sign, ticks: u16)
    requires ticks <= MAX_TICK
    ensures SemanticDegreesToTicks(reference, sign, TicksToSemanticDeg(reference, sign, ticks)) == ticks
  {
    var degrees := TicksToSemanticDeg(reference, sign, ticks);
    var x := reference as real + degrees * 4096.0 / 360.0 * sign as real;
    if sign == 1 {
      assert degrees == (ticks - reference) as real * 360.0 / 4096.0;
    } else {
      assert degrees == -((ticks - reference) as real * 360.0 / 4096.0);
    }
    assert x == ticks as real;
    RoundUnique(x, ticks);
  }

  /** Degrees to ticks and back errs by at most half a tick exactly when the position is
      within half a tick of the servo's range; beyond it the clamp shows. */
  lemma DegreesRoundTrip(reference: u16, sign: Sign, degrees: real)
    ensures var x := reference as real + degrees * 4096.0 / 360.0 * sign as real;
            var back := TicksToSemanticDeg(reference, sign, SemanticDegreesToTicks(reference, sign, degrees));
            Distance(back, degrees) <= 0.5 * 360.0 / 4096.0 <==> -0.5 <= x <= 4095.5
  {
    var x := reference as real + degrees * 4096.0 / 360.0 * sign as real;
    var t := TickOf(x);
    TickError(x);
    InDegrees(reference, sign, degrees, t);
  }

  lemma TickError(x: real)
    ensures Distance(TickOf(x) as real, x) <= 0.5 <==> -0.5 <= x <= 4095.5
  {
    RoundNearest(x);
  }

  /** An error in ticks is the same error in degrees. */
  lemma InDegrees(reference: u16, sign: Sign, degrees: real, t: u16)
    ensures var x := reference as real + degrees * 4096.0 / 360.0 * sign as real;
            Distance(TicksToSemanticDeg(reference, sign, t), degrees) == Distance(t as real, x) * 360.0 / 4096.0
  {
    var x := reference as real + degrees * 4096.0 / 360.0 * sign as real;
    var u := (t - reference) as real;
    if sign == 1 {
      assert x == reference as real + degrees * 4096.0 / 360.0;
      assert TicksToSemanticDeg(reference, sign, t) == u * 360.0 / 4096.0;
    } else {
      assert x == reference as real - degrees * 4096.0 / 360.0;
      assert TicksToSemanticDeg(reference, sign, t) == -(u * 360.0 / 4096.0);
    }
  }

  // ------------------------------------------------------------- the brain's calibration

  datatype Joint = Coxa | Femur | Tibia

  /** The ticks recorded at a joint's three reference angles. */
  datatype Entry = Entry(negative: Option<u16>, zero: Option<u16>, positive: Option<u16>)

  function ReferenceDegrees(joint: Joint): real { if joint == Tibia then 60.0 else 45.0 }

  function TicksPerDegree(sign: Sign): real { 4096.0 / 360.0 * sign as real }

  /** The zero tick one recorded reference implies. */
  function Implied(sign: Sign, ticks: Option<u16>, degrees: real): seq<real> {
    if ticks.None? then [] else [ticks.value as real - degrees * TicksPerDegree(sign)]
  }

  function ImpliedZeroes(sign: Sign, joint: Joint, entry: Entry): seq<real> {
    Implied(sign, entry.negative, -ReferenceDegrees(joint))
    + Implied(sign, entry.zero, 0.0)
    + Implied(sign, entry.positive, ReferenceDegrees(joint))
  }

  function Sum(xs: seq<real>): real
    decreases |xs|
  {
    if xs == [] then 0.0 else xs[0] + Sum(xs[1..])
  }

  /** The average of the implied zeroes; without any, the configured reference. */
  function ZeroReference(reference: u16, sign: Sign, joint: Joint, entry: Option<Entry>): real {
    if entry.None? || ImpliedZeroes(sign, joint, entry.value) == [] then reference as real
    else
      var zeroes := ImpliedZeroes(sign, joint, entry.value);
      Sum(zeroes) / |zeroes| as real
  }

  /** Zero references stay where the `i32` cast does not saturate. */
  predicate Moderate(zero: real) { -70000.0 <= zero <= 70000.0 }

  lemma {:induction false} SumBounded(xs: seq<real>, bound: real)
    requires forall k :: 0 <= k < |xs| ==> -bound <= xs[k] <= bound
    ensures -(|xs| as real * bound) <= Sum(xs) <= |xs| as real * bound
    decreases |xs|
  {
    if xs != [] {
      SumBounded(xs[1..], bound);
      assert |xs| as real * bound == bound + |xs[1..]| as real * bound;
    }
  }

  lemma ImpliedModerate(sign: Sign, ticks: Option<u16>, degrees: real)
    requires -60.0 <= degrees <= 60.0
    ensures forall k :: 0 <= k < |Implied(sign, ticks, degrees)| ==>
              -70000.0 <= Implied(sign, ticks, degrees)[k] <= 70000.0
  {
    if sign == 1 {
      assert degrees * TicksPerDegree(sign) == degrees * (4096.0 / 360.0);
    } else {
      assert degrees * TicksPerDegree(sign) == -(degrees * (4096.0 / 360.0));
    }
  }

  lemma ImpliedZeroesModerate(sign: Sign, joint: Joint, entry: Entry)
    ensures forall k :: 0 <= k < |ImpliedZeroes(sign, joint, entry)| ==>
              -70000.0 <= ImpliedZeroes(sign, joint, entry)[k] <= 70000.0
    ensures |ImpliedZeroes(sign, joint, entry)| <= 3
  {
    ImpliedModerate(sign, entry.negative, -ReferenceDegrees(joint));
    ImpliedModerate(sign, entry.zero, 0.0);
    ImpliedModerate(sign, entry.positive, ReferenceDegrees(joint));
  }

  lemma ZeroReferenceModerate(reference: u16, sign: Sign, joint: Joint, entry: Option<Entry>)
    ensures Moderate(ZeroReference(reference, sign, joint, entry))
  {
    if entry.Some? && ImpliedZeroes(sign, joint, entry.value) != [] {
      ImpliedZeroesModerate(sign, joint, entry.value);
      hide ImpliedZeroes;
      var zeroes := ImpliedZeroes(sign, joint, entry.value);
      SumBounded(zeroes, 70000.0);
      AverageBounded(Sum(zeroes), |zeroes|);
    }
  }

  lemma AverageBounded(sum: real, n: nat)
    requires 1 <= n <= 3 && -(n as real * 70000.0) <= sum <= n as real * 70000.0
    ensures Moderate(sum / n as real)
  {
  }

  /** The angle of `present` ticks, which the source rounds to whole ticks from the zero. */
  function SemanticAngle(zero: real, sign: Sign, present: u16): real {
    AsI32(Round(present as real - zero)) as real * 360.0 / 4096.0 / sign as real
  }

  function TicksForAngle(zero: real, sign: Sign, degrees: real): u16 {
    TickOf(zero + degrees * TicksPerDegree(sign))
  }

  lemma AngleInTicks(zero: real, sign: Sign, present: u16)
    requires Moderate(zero)
    ensures SemanticAngle(zero, sign, present) * TicksPerDegree(sign)
         == Round(present as real - zero) as real
  {
    RoundNearest(present as real - zero);
    var m := Round(present as real - zero) as real;
    if sign == 1 {
      assert SemanticAngle(zero, sign, present) == m * 360.0 / 4096.0;
    } else {
      assert SemanticAngle(zero, sign, present) == -(m * 360.0 / 4096.0);
    }
  }

  /** Where rounding twice lands: on `n`, except one above it when the zero reference lies
      halfway between two ticks below `n`. */
  lemma RoundTwice(zero: real, n: u16)
    ensures Round(zero + Round(n as real - zero) as real)
         == if Half(zero) && n as real > zero then n + 1
            else if Half(zero) && n == 0 then -1
            else n
  {
    var d := n as real - zero;
    var m := Round(d);
    RoundNearest(d);
    if Distance(m as real, d) < 0.5 {
      NotHalf(zero, n, m);
      RoundUnique(zero + m as real, n);
    } else if d >= 0.0 {
      assert zero + m as real == n as real + 0.5;
      FloorUnique(zero, n - m);
      assert n as real != zero;
      FloorUnique(n as real + 1.0, n + 1);
    } else {
      assert zero + m as real == n as real - 0.5;
      FloorUnique(zero, n - m - 1);
      FloorUnique(n as real, n);
      if n == 0 {
        FloorUnique(1.0, 1);
      }
    }
  }

  lemma NotHalf(zero: real, n: int, m: int)
    requires Distance(m as real, n as real - zero) < 0.5
    ensures !Half(zero)
  {
    var e := zero - (n - m) as real;
    if e >= 0.0 {
      FloorUnique(zero, n - m);
    } else {
      FloorUnique(zero, n - m - 1);
    }
  }

  /** Angle of `n` ticks and back to ticks: `n` itself, except one more (where the range
      allows) exactly when the zero reference lies halfway between two ticks below `n`. */
  lemma CalibratedRoundTrip(zero: real, sign: Sign, n: u16)
    requires Moderate(zero) && n <= MAX_TICK
    ensures TicksForAngle(zero, sign, SemanticAngle(zero, sign, n))
         == if Half(zero) && n as real > zero && n < MAX_TICK then n + 1 else n
  {
    AngleInTicks(zero, sign, n);
    RoundTwice(zero, n);
  }

  /** With a whole zero reference the round trip is the identity. */
  lemma WholeZeroRoundTrip(zero: int, sign: Sign, n: u16)
    requires Moderate(zero as real) && n <= MAX_TICK
    ensures TicksForAngle(zero as real, sign, SemanticAngle(zero as real, sign, n)) == n
  {
    CalibratedRoundTrip(zero as real, sign, n);
  }

  /** The round trip moves no servo by more than one tick, for any calibration. */
  lemma WithinOneTick(reference: u16, sign: Sign, joint: Joint, entry: Option<Entry>, n: u16)
    requires n <= MAX_TICK
    ensures var zero := ZeroReference(reference, sign, joint, entry);
            n <= TicksForAngle(zero, sign, SemanticAngle(zero, sign, n)) <= n + 1
  {
    var zero := ZeroReference(reference, sign, joint, entry);
    ZeroReferenceModerate(reference, sign, joint, entry);
    CalibratedRoundTrip(zero, sign, n);
  }

  // ----------------------------------------------------------- what a calibration is for

  /** A recorded reference that is right, to within `error` ticks: taken with the joint at
      `degrees`, when its zero is at tick `zero` and it turns in the sense of `sign`. */
  predicate RightWithin(recorded: Option<u16>, zero: real, sign: Sign, degrees: real, error: real) {
    recorded.Some? ==> Distance(recorded.value as real, zero + 4096.0 / 360.0 * sign as real * degrees) <= error
  }

  /** The references are taken at 45 degrees to either side, of a tibia at 60. */
  predicate EntryRightWithin(entry: Entry, zero: real, sign: Sign, joint: Joint, error: real) {
    && RightWithin(entry.negative, zero, sign, if joint.Tibia? then -60.0 else -45.0, error)
    && RightWithin(entry.zero, zero, sign, 0.0, error)
    && RightWithin(entry.positive, zero, sign, if joint.Tibia? then 60.0 else 45.0, error)
  }

  lemma ImpliedNear(sign: Sign, recorded: Option<u16>, degrees: real, zero: real, error: real)
    requires RightWithin(recorded, zero, sign, degrees, error)
    ensures forall k :: 0 <= k < |Implied(sign, recorded, degrees)| ==>
              Distance(Implied(sign, recorded, degrees)[k], zero) <= error
  {
    if sign == 1 {
      assert degrees * TicksPerDegree(sign) == 4096.0 / 360.0 * sign as real * degrees;
    } else {
      assert degrees * TicksPerDegree(sign) == 4096.0 / 360.0 * sign as real * degrees;
    }
  }

  function Repeated(n: nat, x: real): real { if n == 0 then 0.0 else x + Repeated(n - 1, x) }

  lemma {:induction false} SumNear(xs: seq<real>, zero: real, error: real)
    requires forall k :: 0 <= k < |xs| ==> Distance(xs[k], zero) <= error
    ensures Distance(Sum(xs), Repeated(|xs|, zero)) <= Repeated(|xs|, error)
    decreases |xs|
  {
    if xs != [] {
      SumNear(xs[1..], zero, error);
    }
  }

  lemma AverageNear(sum: real, n: nat, zero: real, error: real)
    requires 1 <= n <= 3 && Distance(sum, Repeated(n, zero)) <= Repeated(n, error)
    ensures Distance(sum / n as real, zero) <= error
  {
    assert Repeated(1, zero) == zero && Repeated(1, error) == error;
    assert Repeated(2, zero) == zero + zero && Repeated(2, error) == error + error;
    assert Repeated(3, zero) == zero + zero + zero && Repeated(3, error) == error + error + error;
    if n == 1 {
    } else if n == 2 {
    } else {
    }
  }

  /** A calibration recovers the zero: references that are right to within `error` ticks give a
      zero that is, and perfect ones the zero itself. */
  lemma CalibrationFindsZero(reference: u16, sign: Sign, joint: Joint, entry: Entry, zero: real, error: real)
    requires entry.negative.Some? || entry.zero.Some? || entry.positive.Some?
    requires EntryRightWithin(entry, zero, sign, joint, error)
    ensures Distance(ZeroReference(reference, sign, joint, Some(entry)), zero) <= error
    ensures error == 0.0 ==> ZeroReference(reference, sign, joint, Some(entry)) == zero
  {
    hide Implied, Sum, Repeated, Distance, TicksPerDegree;
    ImpliedNear(sign, entry.negative, -ReferenceDegrees(joint), zero, error);
    ImpliedNear(sign, entry.zero, 0.0, zero, error);
    ImpliedNear(sign, entry.positive, ReferenceDegrees(joint), zero, error);
    ImpliedSizes(sign, joint, entry);
    var zeroes := ImpliedZeroes(sign, joint, entry);
    hide RightWithin;
    SumNear(zeroes, zero, error);
    AverageNear(Sum(zeroes), |zeroes|, zero, error);
    Touching(Sum(zeroes) / |zeroes| as real, zero);
  }

  lemma ImpliedSizes(sign: Sign, joint: Joint, entry: Entry)
    requires entry.negative.Some? || entry.zero.Some? || entry.positive.Some?
    ensures 1 <= |ImpliedZeroes(sign, joint, entry)| <= 3
  {
  }

  lemma Touching(x: real, y: real)
    ensures Distance(x, y) <= 0.0 ==> x == y
  {
  }

  /** Without a recorded reference the configured one stands. */
  lemma NoCalibration(reference: u16, sign: Sign, joint: Joint)
    ensures ZeroReference(reference, sign, joint, None) == reference as real
    ensures ZeroReference(reference, sign, joint, Some(Entry(None, None, None))) == reference as real
  {
  }

  /** The angle of a servo is its ticks from the zero, in its own sense, to half a tick. */
  lemma AngleMeans(zero: real, sign: Sign, present: u16)
    requires Moderate(zero)
    ensures Distance(4096.0 / 360.0 * sign as real * SemanticAngle(zero, sign, present), present as real - zero) <= 0.5
  {
    AngleInTicks(zero, sign, present);
    RoundNearest(present as real - zero);
    assert 4096.0 / 360.0 * sign as real * SemanticAngle(zero, sign, present)
        == SemanticAngle(zero, sign, present) * TicksPerDegree(sign);
    hide SemanticAngle, Round, Moderate;
  }

  /** The ticks of an angle are that far from the zero, in the servo's sense and range, to half
      a tick. */
  lemma TicksMean(zero: real, sign: Sign, degrees: real)
    ensures var exact := zero + 4096.0 / 360.0 * sign as real * degrees;
            Distance(TicksForAngle(zero, sign, degrees) as real, Clamp(exact, 0.0, 4095.0)) <= 0.5
  {
    hide TickOf, Clamp;
    DegreesInTicks(sign, degrees);
    var exact := zero + degrees * TicksPerDegree(sign);
    hide TicksPerDegree;
    TickIsNearest(exact);
  }

  lemma DegreesInTicks(sign: Sign, degrees: real)
    ensures degrees * TicksPerDegree(sign) == 4096.0 / 360.0 * sign as real * degrees
  {
  }

  lemma TickIsNearest(x: real)
    ensures Distance(TickOf(x) as real, Clamp(x, 0.0, 4095.0)) <= 0.5
  {
    RoundNearest(x);
  }

  /** The exception is real: a zero reference averaged to half a tick moves the servo. */
  lemma HalfTickZeroMoves()
    ensures var entry := Entry(None, Some(2048), Some(2561));
            ZeroReference(2048, 1, Coxa, Some(entry)) == 2048.5
            && TicksForAngle(2048.5, 1, SemanticAngle(2048.5, 1, 3000)) == 3001
  {
    var entry := Entry(None, Some(2048), Some(2561));
    assert ImpliedZeroes(1, Coxa, entry) == [2048.0, 2049.0];
    assert Sum([2048.0, 2049.0]) == 2048.0 + Sum([2049.0]);
    assert Sum([2049.0]) == 2049.0 + Sum([]);
    FloorUnique(2048.5, 2048);
    CalibratedRoundTrip(2048.5, 1, 3000);
  }
}
