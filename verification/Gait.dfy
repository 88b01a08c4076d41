/** The tripod gait: the leg cycle, the walking pose and the walk's beginning and end.

    `lift` stands for the sine of the lift arc, of which the proofs use only that it vanishes at
    the arc's ends; a leg's profile (how far it swings and lifts) is a parameter. */
module Gait {
  import opened Results
  import opened Words
  import opened Reals
  import opened Easing
  import opened Ticks

  /** A servo with its calibrated zero tick and direction. */
  datatype Servo = Servo(id: u8, zero: real, sign: Sign)

  /** A leg, its tripod, and the sense in which the current motion swings its coxa. */
  datatype Leg = Leg(tripodA: bool, direction: Direction, coxa: Servo, femur: Servo, tibia: Servo)

  datatype Direction = Backward | Still | Forward

  datatype Angles = Angles(coxa: real, femur: real, tibia: real)

  datatype Profile = Profile(coxaSwing: real, femurLift: real, tibiaLift: real)

  datatype GaitConfig = GaitConfig(settleSeconds: real, cycleSeconds: real, startupBlendSeconds: real)

  /** What the gait takes from elsewhere: the lift arc, a leg's fallback pose and profile. */
  datatype Terms = Terms(lift: real -> real, fallback: Leg -> Angles, profile: (Leg, Angles) -> Profile)

  const F32_EPSILON := 0.00000011920928955078125

  function DirectionSign(d: Direction): real {
    match d case Backward => -1.0 case Still => 0.0 case Forward => 1.0
  }

  function AngleOf(s: Servo, ticks: u16): real { SemanticAngle(s.zero, s.sign, ticks) }

  function TicksOf(s: Servo, degrees: real): u16 { TicksForAngle(s.zero, s.sign, degrees) }

  function Fract(x: real): real { x - x.Floor as real }

  // -------------------------------------------------------------------------- the cycle

  /** Coxa offset and lift ratio of a leg at a phase of its cycle. */
  function CycleShape(lift: real -> real, phase: real, swing: real): (real, real) {
    if phase < 0.5 then
      var t := phase / 0.5;
      (Lerp(-swing, swing, Smoothstep(t)), Max(lift(t), 0.0))
    else
      (Lerp(swing, -swing, (phase - 0.5) / 0.5), 0.0)
  }

  function LegPhase(leg: Leg, phase: real): real {
    if leg.tripodA then phase else Fract(phase + 0.5)
  }

  function SemanticPose(terms: Terms, leg: Leg, base: Pose): Angles {
    var fallback := terms.fallback(leg);
    Angles(
      if leg.coxa.id in base then AngleOf(leg.coxa, base[leg.coxa.id]) else fallback.coxa,
      if leg.femur.id in base then AngleOf(leg.femur, base[leg.femur.id]) else fallback.femur,
      if leg.tibia.id in base then AngleOf(leg.tibia, base[leg.tibia.id]) else fallback.tibia)
  }

  function LegTarget(terms: Terms, leg: Leg, base: Pose, phase: real, amplitude: real): Angles {
    var stance := SemanticPose(terms, leg, base);
    var profile := terms.profile(leg, stance);
    var (coxaDelta, lift) := CycleShape(terms.lift, LegPhase(leg, phase), profile.coxaSwing);
    Angles(
      stance.coxa + coxaDelta * DirectionSign(leg.direction) * amplitude,
      stance.femur + profile.femurLift * lift,
      stance.tibia + profile.tibiaLift * lift)
  }

  function WithLeg(pose: Pose, leg: Leg, target: Angles): Pose {
    pose[leg.coxa.id := TicksOf(leg.coxa, target.coxa)]
        [leg.femur.id := TicksOf(leg.femur, target.femur)]
        [leg.tibia.id := TicksOf(leg.tibia, target.tibia)]
  }

  /** The walking pose of the first `n` legs. */
  function WalkPose(terms: Terms, legs: seq<Leg>, n: nat, base: Pose, phase: real, amplitude: real): Pose
    requires n <= |legs|
  {
    if n == 0 then map[]
    else
      WithLeg(WalkPose(terms, legs, n - 1, base, phase, amplitude),
              legs[n - 1], LegTarget(terms, legs[n - 1], base, phase, amplitude))
  }

  method ComputeWalkPose(terms: Terms, legs: seq<Leg>, base: Pose, phase: real, amplitude: real)
    returns (commanded: Pose)
    ensures commanded == WalkPose(terms, legs, |legs|, base, phase, amplitude)
  {
    commanded := map[];
    for n := 0 to |legs|
      invariant commanded == WalkPose(terms, legs, n, base, phase, amplitude)
    {
      var leg := legs[n];
      var target := LegTarget(terms, leg, base, phase, amplitude);
      commanded := commanded[leg.coxa.id := TicksOf(leg.coxa, target.coxa)];
      commanded := commanded[leg.femur.id := TicksOf(leg.femur, target.femur)];
      commanded := commanded[leg.tibia.id := TicksOf(leg.tibia, target.tibia)];
    }
  }

  function SettleTime(g: GaitConfig): real { Max(g.settleSeconds, 0.25) }

  function CycleTime(g: GaitConfig): (t: real)
    ensures t >= 0.5
  {
    Max(g.cycleSeconds, 0.5)
  }

  function Amplitude(g: GaitConfig, gaitElapsed: real): real {
    var blend := Max(g.startupBlendSeconds, 0.0);
    if blend <= F32_EPSILON then 1.0 else Smoothstep(Clamp01(gaitElapsed / blend))
  }

  function TripodGaitPose(g: GaitConfig, terms: Terms, legs: seq<Leg>, base: Pose,
                          elapsed: real, walkSeconds: Option<real>): Pose
  {
    var settle := SettleTime(g);
    if elapsed < settle then base
    else if walkSeconds.Some? && elapsed - settle >= Max(walkSeconds.value, 0.0) then base
    else
      var gaitElapsed := elapsed - settle;
      WalkPose(terms, legs, |legs|, base, Fract(gaitElapsed / CycleTime(g)), Amplitude(g, gaitElapsed))
  }

  // ---------------------------------------------------------------------- well-formedness

  function Servos(leg: Leg): set<u8> { {leg.coxa.id, leg.femur.id, leg.tibia.id} }

  predicate LegOk(leg: Leg) {
    && leg.coxa.id != leg.femur.id && leg.coxa.id != leg.tibia.id && leg.femur.id != leg.tibia.id
    && Moderate(leg.coxa.zero) && Moderate(leg.femur.zero) && Moderate(leg.tibia.zero)
  }

  /** No servo serves two joints, and every zero reference is one a calibration can give
      (`Ticks.ZeroReferenceModerate`). */
  ghost predicate WellFormed(legs: seq<Leg>) {
    && (forall i :: 0 <= i < |legs| ==> LegOk(legs[i]))
    && (forall i, j :: 0 <= i < j < |legs| ==> Servos(legs[i]) !! Servos(legs[j]))
  }

  /** A captured pose: a legal position for every servo. */
  ghost predicate Captured(legs: seq<Leg>, base: Pose) {
    forall i :: 0 <= i < |legs| ==>
      forall id :: id in Servos(legs[i]) ==> id in base && base[id] <= MAX_TICK
  }

  predicate WithinOne(command: u16, captured: u16) { captured <= command <= captured + 1 }

  lemma {:induction false} WalkPoseAt(terms: Terms, legs: seq<Leg>, n: nat, base: Pose, phase: real, amplitude: real,
                                      i: nat)
    requires WellFormed(legs) && i < n <= |legs|
    ensures var (pose, leg) := (WalkPose(terms, legs, n, base, phase, amplitude), legs[i]);
            var target := LegTarget(terms, leg, base, phase, amplitude);
            && Servos(leg) <= pose.Keys
            && pose[leg.coxa.id] == TicksOf(leg.coxa, target.coxa)
            && pose[leg.femur.id] == TicksOf(leg.femur, target.femur)
            && pose[leg.tibia.id] == TicksOf(leg.tibia, target.tibia)
  {
    hide LegTarget, TicksOf;
    assert LegOk(legs[i]);
    if i < n - 1 {
      WalkPoseAt(terms, legs, n - 1, base, phase, amplitude, i);
      var (leg, last) := (legs[i], legs[n - 1]);
      assert Servos(leg) !! Servos(last);
      assert leg.coxa.id in Servos(leg) && leg.femur.id in Servos(leg) && leg.tibia.id in Servos(leg);
    }
  }

  // ------------------------------------------------------------------------ support legs

  lemma FractHalf(phase: real)
    requires 0.0 <= phase < 1.0
    ensures Fract(phase + 0.5) == if phase < 0.5 then phase + 0.5 else phase - 0.5
  {
    FloorUnique(phase + 0.5, if phase < 0.5 then 0 else 1);
  }

  /** The tripod that stands at a phase. */
  predicate Supports(leg: Leg, phase: real) { leg.tripodA == (phase >= 0.5) }

  /** At every phase the legs of one tripod have no lift at all. */
  lemma SupportHasNoLift(lift: real -> real, leg: Leg, phase: real, swing: real)
    requires 0.0 <= phase < 1.0 && Supports(leg, phase)
    ensures CycleShape(lift, LegPhase(leg, phase), swing).1 == 0.0
  {
    FractHalf(phase);
  }

  lemma Unmoved(s: Servo, captured: u16, delta: real)
    requires Moderate(s.zero) && captured <= MAX_TICK && delta == 0.0
    ensures WithinOne(TicksOf(s, AngleOf(s, captured) + delta), captured)
    ensures !Half(s.zero) ==> TicksOf(s, AngleOf(s, captured) + delta) == captured
  {
    CalibratedRoundTrip(s.zero, s.sign, captured);
  }

  /** A leg's angles with the delta each joint gets. */
  lemma TargetDeltas(terms: Terms, leg: Leg, base: Pose, phase: real, amplitude: real)
    requires Servos(leg) <= base.Keys
    ensures var target := LegTarget(terms, leg, base, phase, amplitude);
            var profile := terms.profile(leg, SemanticPose(terms, leg, base));
            var shape := CycleShape(terms.lift, LegPhase(leg, phase), profile.coxaSwing);
            && target.coxa == AngleOf(leg.coxa, base[leg.coxa.id]) + shape.0 * DirectionSign(leg.direction) * amplitude
            && (shape.1 == 0.0 ==>
                  && target.femur == AngleOf(leg.femur, base[leg.femur.id])
                  && target.tibia == AngleOf(leg.tibia, base[leg.tibia.id]))
  {
    assert leg.coxa.id in Servos(leg) && leg.femur.id in Servos(leg) && leg.tibia.id in Servos(leg);
    hide AngleOf, CycleShape, LegPhase;
  }

  predicate LegCaptured(leg: Leg, base: Pose) {
    && LegOk(leg) && Servos(leg) <= base.Keys
    && base[leg.coxa.id] <= MAX_TICK && base[leg.femur.id] <= MAX_TICK && base[leg.tibia.id] <= MAX_TICK
  }

  lemma CapturedLeg(legs: seq<Leg>, base: Pose, i: nat)
    requires WellFormed(legs) && Captured(legs, base) && i < |legs|
    ensures LegCaptured(legs[i], base)
  {
    var leg := legs[i];
    assert leg.coxa.id in Servos(leg) && leg.femur.id in Servos(leg) && leg.tibia.id in Servos(leg);
    assert LegOk(leg);
  }

  lemma LegStaysPlanted(terms: Terms, leg: Leg, base: Pose, phase: real, amplitude: real)
    requires LegCaptured(leg, base) && 0.0 <= phase < 1.0 && Supports(leg, phase)
    ensures var target := LegTarget(terms, leg, base, phase, amplitude);
            && WithinOne(TicksOf(leg.femur, target.femur), base[leg.femur.id])
            && WithinOne(TicksOf(leg.tibia, target.tibia), base[leg.tibia.id])
  {
    TargetDeltas(terms, leg, base, phase, amplitude);
    var profile := terms.profile(leg, SemanticPose(terms, leg, base));
    SupportHasNoLift(terms.lift, leg, phase, profile.coxaSwing);
    hide AngleOf, TicksOf, CycleShape, WithinOne, LegTarget, LegPhase, Moderate;
    Unmoved(leg.femur, base[leg.femur.id], 0.0);
    Unmoved(leg.tibia, base[leg.tibia.id], 0.0);
  }

  /** At every phase and amplitude of the walk, every leg of the supporting tripod keeps its
      femur and tibia where the captured pose had them, to within the one tick a half-tick
      zero reference can cost. */
  lemma SupportStaysPlanted(terms: Terms, legs: seq<Leg>, base: Pose, phase: real, amplitude: real, i: nat)
    requires WellFormed(legs) && Captured(legs, base) && 0.0 <= phase < 1.0
    requires i < |legs| && Supports(legs[i], phase)
    ensures var (pose, leg) := (WalkPose(terms, legs, |legs|, base, phase, amplitude), legs[i]);
            && Servos(leg) <= pose.Keys && Servos(leg) <= base.Keys
            && WithinOne(pose[leg.femur.id], base[leg.femur.id])
            && WithinOne(pose[leg.tibia.id], base[leg.tibia.id])
  {
    CapturedLeg(legs, base, i);
    hide LegTarget, TicksOf, WithinOne, Captured;
    WalkPoseAt(terms, legs, |legs|, base, phase, amplitude, i);
    LegStaysPlanted(terms, legs[i], base, phase, amplitude);
  }

  /** In a pose, every leg of a tripod has femur and tibia where they were captured. */
  ghost predicate TripodPlanted(legs: seq<Leg>, base: Pose, pose: Pose, tripodA: bool) {
    forall i :: 0 <= i < |legs| && legs[i].tripodA == tripodA ==>
      && Servos(legs[i]) <= pose.Keys && Servos(legs[i]) <= base.Keys
      && WithinOne(pose[legs[i].femur.id], base[legs[i].femur.id])
      && WithinOne(pose[legs[i].tibia.id], base[legs[i].tibia.id])
  }

  lemma WalkKeepsTripod(terms: Terms, legs: seq<Leg>, base: Pose, phase: real, amplitude: real)
    requires WellFormed(legs) && Captured(legs, base) && 0.0 <= phase < 1.0
    ensures TripodPlanted(legs, base, WalkPose(terms, legs, |legs|, base, phase, amplitude), phase >= 0.5)
  {
    hide WalkPose, WithinOne, WellFormed, Captured;
    forall i | 0 <= i < |legs| && legs[i].tripodA == (phase >= 0.5)
      ensures var (pose, leg) := (WalkPose(terms, legs, |legs|, base, phase, amplitude), legs[i]);
              && Servos(leg) <= pose.Keys && Servos(leg) <= base.Keys
              && WithinOne(pose[leg.femur.id], base[leg.femur.id])
              && WithinOne(pose[leg.tibia.id], base[leg.tibia.id])
    {
      SupportStaysPlanted(terms, legs, base, phase, amplitude, i);
    }
  }

  lemma BaseKeepsTripod(legs: seq<Leg>, base: Pose, tripodA: bool)
    requires Captured(legs, base)
    ensures TripodPlanted(legs, base, base, tripodA)
  {
    forall i | 0 <= i < |legs|
      ensures Servos(legs[i]) <= base.Keys
    {
      assert forall id :: id in Servos(legs[i]) ==> id in base;
    }
  }

  /** Gait safety: at every time, whatever the profile, lift and amplitude, the commanded pose
      keeps one whole tripod planted. */
  lemma AlwaysOneTripodPlanted(g: GaitConfig, terms: Terms, legs: seq<Leg>, base: Pose, elapsed: real,
                               walkSeconds: Option<real>)
    requires WellFormed(legs) && Captured(legs, base)
    ensures var pose := TripodGaitPose(g, terms, legs, base, elapsed, walkSeconds);
            TripodPlanted(legs, base, pose, true) || TripodPlanted(legs, base, pose, false)
  {
    hide TripodPlanted, WalkPose, Amplitude, CycleTime, WellFormed, Captured;
    BaseKeepsTripod(legs, base, true);
    if TripodGaitPose(g, terms, legs, base, elapsed, walkSeconds) != base {
      var gaitElapsed := elapsed - SettleTime(g);
      var phase := Fract(gaitElapsed / CycleTime(g));
      WalkKeepsTripod(terms, legs, base, phase, Amplitude(g, gaitElapsed));
    }
  }

  // ------------------------------------------------------------------------ smooth start

  lemma AmplitudeStartsAtZero(g: GaitConfig)
    requires g.startupBlendSeconds > F32_EPSILON
    ensures Amplitude(g, 0.0) == 0.0
  {
    SmoothstepRange(Clamp01(0.0 / g.startupBlendSeconds));
  }

  lemma FirstLift(lift: real -> real, leg: Leg, swing: real)
    requires lift(0.0) == 0.0
    ensures CycleShape(lift, LegPhase(leg, 0.0), swing).1 == 0.0
  {
    FractHalf(0.0);
  }

  lemma LegStartsUnmoved(terms: Terms, leg: Leg, base: Pose)
    requires LegCaptured(leg, base) && terms.lift(0.0) == 0.0
    ensures var target := LegTarget(terms, leg, base, 0.0, 0.0);
            && WithinOne(TicksOf(leg.coxa, target.coxa), base[leg.coxa.id])
            && WithinOne(TicksOf(leg.femur, target.femur), base[leg.femur.id])
            && WithinOne(TicksOf(leg.tibia, target.tibia), base[leg.tibia.id])
  {
    TargetDeltas(terms, leg, base, 0.0, 0.0);
    FirstLift(terms.lift, leg, terms.profile(leg, SemanticPose(terms, leg, base)).coxaSwing);
    hide AngleOf, TicksOf, CycleShape, WithinOne, LegTarget, LegPhase, Moderate;
    Unmoved(leg.coxa, base[leg.coxa.id], 0.0);
    Unmoved(leg.femur, base[leg.femur.id], 0.0);
    Unmoved(leg.tibia, base[leg.tibia.id], 0.0);
  }

  lemma FirstWalkPose(g: GaitConfig, terms: Terms, legs: seq<Leg>, base: Pose, walkSeconds: Option<real>)
    requires g.startupBlendSeconds > F32_EPSILON
    requires walkSeconds.Some? ==> walkSeconds.value > 0.0
    ensures TripodGaitPose(g, terms, legs, base, SettleTime(g), walkSeconds)
         == WalkPose(terms, legs, |legs|, base, 0.0, 0.0)
  {
    AmplitudeStartsAtZero(g);
    assert 0.0 / CycleTime(g) == 0.0;
    FloorUnique(0.0, 0);
  }

  /** The first command of the walk is the captured pose, to within one tick a servo, whenever
      a startup blend is configured. */
  lemma SmoothStart(g: GaitConfig, terms: Terms, legs: seq<Leg>, base: Pose, walkSeconds: Option<real>, i: nat, id: u8)
    requires WellFormed(legs) && Captured(legs, base) && terms.lift(0.0) == 0.0
    requires g.startupBlendSeconds > F32_EPSILON
    requires i < |legs| && id in Servos(legs[i])
    ensures var first := TripodGaitPose(g, terms, legs, base, SettleTime(g), walkSeconds);
            id in first && id in base && WithinOne(first[id], base[id])
  {
    CapturedLeg(legs, base, i);
    if walkSeconds.Some? && walkSeconds.value <= 0.0 {
      assert TripodGaitPose(g, terms, legs, base, SettleTime(g), walkSeconds) == base;
    } else {
      FirstWalkPose(g, terms, legs, base, walkSeconds);
      hide LegTarget, TicksOf, Captured, TripodGaitPose;
      WalkPoseAt(terms, legs, |legs|, base, 0.0, 0.0, i);
      LegStartsUnmoved(terms, legs[i], base);
    }
  }

  /** Before the settle time and after the walk's limit the captured pose itself is held. */
  lemma HeldOutsideTheWalk(g: GaitConfig, terms: Terms, legs: seq<Leg>, base: Pose, elapsed: real, limit: real)
    requires elapsed < SettleTime(g) || elapsed - SettleTime(g) >= Max(limit, 0.0)
    ensures TripodGaitPose(g, terms, legs, base, elapsed, Some(limit)) == base
  {
  }

  // -------------------------------------------------------------------------- coxa curve

  /** The coxa curve of a unit swing. */
  function UnitSwing(phase: real): real {
    if phase < 0.5 then 2.0 * Smoothstep(2.0 * phase) - 1.0 else 3.0 - 4.0 * phase
  }

  lemma SwingScales(lift: real -> real, phase: real, swing: real)
    ensures CycleShape(lift, phase, swing).0 == Product(swing, UnitSwing(phase))
  {
    assert phase / 0.5 == 2.0 * phase && (phase - 0.5) / 0.5 == 2.0 * phase - 1.0;
    hide Smoothstep;
  }

  lemma UnitSwingRange(phase: real)
    requires 0.0 <= phase <= 1.0
    ensures -1.0 <= UnitSwing(phase) <= 1.0
  {
    SmoothstepRange(2.0 * phase);
  }

  /** The coxa never leaves the swing amplitude. */
  lemma CoxaWithinSwing(lift: real -> real, phase: real, swing: real)
    requires 0.0 <= phase <= 1.0
    ensures Abs(CycleShape(lift, phase, swing).0) <= Abs(swing)
  {
    hide Product, UnitSwing, CycleShape;
    SwingScales(lift, phase, swing);
    UnitSwingRange(phase);
    Scaled(swing, UnitSwing(phase));
    ProductGrows(Abs(swing), Abs(UnitSwing(phase)), 1.0);
    ProductWithOne(Abs(swing));
  }

  lemma ProductWithOne(k: real)
    ensures Product(k, 1.0) == k
  {
  }

  lemma Scaled(k: real, u: real)
    ensures Abs(Product(k, u)) == Product(Abs(k), Abs(u))
  {
    assert Product(-k, u) == Product(k, -u) == -Product(k, u) == -Product(-k, -u);
    hide Product;
    ProductSign(k, u);
    ProductSign(-k, u);
  }

  /** The distance between two phases around the cycle. */
  function PhaseDistance(p: real, q: real): real {
    var d := Distance(p, q);
    if d <= 0.5 then d else 1.0 - d
  }

  lemma UnitSwingSpread(p: real, q: real)
    requires 0.0 <= p <= q < 1.0
    ensures Distance(UnitSwing(p), UnitSwing(q)) <= 6.0 * PhaseDistance(p, q)
  {
    SmoothstepRange(0.0);
    SmoothstepRange(1.0);
    if q - p > 0.5 {
      SmoothstepSpread(0.0, 2.0 * p);
    } else if q < 0.5 {
      SmoothstepSpread(2.0 * p, 2.0 * q);
    } else if p < 0.5 {
      SmoothstepSpread(2.0 * p, 1.0);
    }
    hide Smoothstep;
  }

  /** The coxa curve is continuous all around the cycle, through the half and the wrap: it
      moves at most six times the swing per cycle. */
  lemma CoxaSpread(lift: real -> real, p: real, q: real, swing: real)
    requires 0.0 <= p < 1.0 && 0.0 <= q < 1.0
    ensures Distance(CycleShape(lift, p, swing).0, CycleShape(lift, q, swing).0)
         <= 6.0 * Product(Abs(swing), PhaseDistance(p, q))
  {
    SwingScales(lift, p, swing);
    SwingScales(lift, q, swing);
    if p <= q { UnitSwingSpread(p, q); } else { UnitSwingSpread(q, p); }
    var (u, v, far) := (UnitSwing(p), UnitSwing(q), PhaseDistance(p, q));
    hide UnitSwing, CycleShape, PhaseDistance;
    ScaledSpread(swing, u, v, far);
  }

  lemma ScaledSpread(swing: real, u: real, v: real, far: real)
    requires Distance(u, v) <= 6.0 * far
    ensures Distance(Product(swing, u), Product(swing, v)) <= 6.0 * Product(Abs(swing), far)
  {
    assert Product(swing, u - v) == Product(swing, u) - Product(swing, v);
    assert Product(Abs(swing), 6.0 * far) == 6.0 * Product(Abs(swing), far);
    hide Product;
    Scaled(swing, u - v);
    ProductGrows(Abs(swing), Distance(u, v), 6.0 * far);
  }

  /** Phases move around the cycle no faster than time does. */
  lemma PhaseFollowsTime(x: real, y: real)
    requires x <= y
    ensures 0.0 <= Fract(x) < 1.0 && 0.0 <= Fract(y) < 1.0
    ensures PhaseDistance(Fract(x), Fract(y)) <= y - x
  {
    FloorMonotone(x, y);
  }

  /** The coxa offset of the walk at any two times of the walk, however the cycle wraps in
      between: it moves at most six times the swing for each cycle that passes. */
  lemma CoxaFollowsTime(g: GaitConfig, lift: real -> real, leg: Leg, swing: real, e1: real, e2: real)
    requires 0.0 <= e1 <= e2
    ensures var cycle := CycleTime(g);
            Distance(CycleShape(lift, LegPhase(leg, Fract(e1 / cycle)), swing).0,
                     CycleShape(lift, LegPhase(leg, Fract(e2 / cycle)), swing).0)
            <= 6.0 * Product(Abs(swing), e2 / cycle - e1 / cycle)
  {
    var (x, y) := (e1 / CycleTime(g), e2 / CycleTime(g));
    QuotientOrder(e1, e2, CycleTime(g));
    PhaseFollowsTime(x, y);
    OppositePhase(Fract(x), Fract(y));
    var (p, q) := (LegPhase(leg, Fract(x)), LegPhase(leg, Fract(y)));
    hide CycleShape, Fract, PhaseDistance, Product, CycleTime;
    CoxaSpread(lift, p, q, swing);
    ProductGrows(Abs(swing), PhaseDistance(p, q), y - x);
  }

  lemma OppositePhase(p: real, q: real)
    requires 0.0 <= p < 1.0 && 0.0 <= q < 1.0
    ensures 0.0 <= Fract(p + 0.5) < 1.0 && 0.0 <= Fract(q + 0.5) < 1.0
    ensures PhaseDistance(Fract(p + 0.5), Fract(q + 0.5)) == PhaseDistance(p, q)
  {
    FractHalf(p);
    FractHalf(q);
  }

  // --------------------------------------------------------------- the walking commands

  predicate Walking(g: GaitConfig, elapsed: real, walkSeconds: Option<real>) {
    && SettleTime(g) <= elapsed
    && (walkSeconds.Some? ==> elapsed - SettleTime(g) < Max(walkSeconds.value, 0.0))
  }

  ghost function Swing(terms: Terms, leg: Leg, base: Pose): real {
    terms.profile(leg, SemanticPose(terms, leg, base)).coxaSwing
  }

  /** A curve value in the direction of the motion, at the amplitude of the blend. */
  function Blended(u: real, d: Direction, amplitude: real): real { u * DirectionSign(d) * amplitude }

  /** The coxa's offset in degrees, `t` seconds into the walk. */
  ghost function CoxaOffset(g: GaitConfig, terms: Terms, leg: Leg, base: Pose, t: real): real {
    var shape := CycleShape(terms.lift, LegPhase(leg, Fract(t / CycleTime(g))), Swing(terms, leg, base));
    Blended(shape.0, leg.direction, Amplitude(g, t))
  }

  lemma CoxaCommand(g: GaitConfig, terms: Terms, legs: seq<Leg>, base: Pose, elapsed: real,
                    walkSeconds: Option<real>, i: nat)
    requires WellFormed(legs) && Captured(legs, base) && i < |legs| && Walking(g, elapsed, walkSeconds)
    ensures var (pose, coxa) := (TripodGaitPose(g, terms, legs, base, elapsed, walkSeconds), legs[i].coxa);
            var offset := CoxaOffset(g, terms, legs[i], base, elapsed - SettleTime(g));
            && LegOk(legs[i]) && coxa.id in base && base[coxa.id] <= MAX_TICK && coxa.id in pose
            && pose[coxa.id] == TicksOf(coxa, AngleOf(coxa, base[coxa.id]) + offset)
  {
    hide Captured, TicksOf, AngleOf, CycleShape, Amplitude, CycleTime, Fract, LegPhase, SemanticPose;
    var t := elapsed - SettleTime(g);
    var (phase, amplitude) := (Fract(t / CycleTime(g)), Amplitude(g, t));
    CapturedLeg(legs, base, i);
    TargetDeltas(terms, legs[i], base, phase, amplitude);
    hide LegTarget;
    WalkPoseAt(terms, legs, |legs|, base, phase, amplitude, i);
    assert legs[i].coxa.id in Servos(legs[i]);
    assert LegTarget(terms, legs[i], base, phase, amplitude).coxa
        == AngleOf(legs[i].coxa, base[legs[i].coxa.id]) + CoxaOffset(g, terms, legs[i], base, t);
  }

  /** How much of the blend passes between two times of the walk. */
  function BlendShare(g: GaitConfig, span: real): real {
    var blend := Max(g.startupBlendSeconds, 0.0);
    if blend <= F32_EPSILON then 0.0 else span / blend
  }

  lemma AmplitudeSpread(g: GaitConfig, t1: real, t2: real)
    requires 0.0 <= t1 <= t2
    ensures 0.0 <= Amplitude(g, t1) <= 1.0 && 0.0 <= Amplitude(g, t2) <= 1.0
    ensures Distance(Amplitude(g, t1), Amplitude(g, t2)) <= 1.5 * BlendShare(g, t2 - t1)
  {
    hide Smoothstep, Clamp01, Max, Distance;
    var blend := Max(g.startupBlendSeconds, 0.0);
    if blend <= F32_EPSILON {
      NoWay(Amplitude(g, t1));
    } else {
      var (x, y) := (t1 / blend, t2 / blend);
      QuotientOrder(t1, t2, blend);
      QuotientDifference(t1, t2, blend);
      EaseSpread(x, y);
    }
  }

  lemma NoWay(x: real)
    ensures Distance(x, x) == 0.0
  {
  }

  lemma QuotientDifference(a: real, b: real, len: real)
    requires len > 0.0
    ensures b / len - a / len == (b - a) / len
  {
  }

  lemma EaseSpread(x: real, y: real)
    requires x <= y
    ensures 0.0 <= Smoothstep(Clamp01(x)) <= 1.0 && 0.0 <= Smoothstep(Clamp01(y)) <= 1.0
    ensures Distance(Smoothstep(Clamp01(x)), Smoothstep(Clamp01(y))) <= 1.5 * (y - x)
  {
    hide Smoothstep;
    SmoothstepRange(Clamp01(x));
    SmoothstepRange(Clamp01(y));
    SmoothstepSpread(Clamp01(x), Clamp01(y));
  }

  /** The most a coxa may turn in `span` seconds, for a swing of one degree. */
  function Pace(g: GaitConfig, span: real): real { 6.0 * (span / CycleTime(g)) + 1.5 * BlendShare(g, span) }

  lemma OffsetSpread(g: GaitConfig, terms: Terms, leg: Leg, base: Pose, t1: real, t2: real)
    requires 0.0 <= t1 <= t2
    ensures Distance(CoxaOffset(g, terms, leg, base, t1), CoxaOffset(g, terms, leg, base, t2))
         <= Product(Abs(Swing(terms, leg, base)), Pace(g, t2 - t1))
  {
    hide CycleShape, LegPhase, Fract, Amplitude, CycleTime, Swing, Product, BlendShare, Abs, Distance, Blended;
    var (swing, cycle) := (Swing(terms, leg, base), CycleTime(g));
    var (p, q) := (LegPhase(leg, Fract(t1 / cycle)), LegPhase(leg, Fract(t2 / cycle)));
    CoxaFollowsTime(g, terms.lift, leg, swing, t1, t2);
    AmplitudeSpread(g, t1, t2);
    LegPhaseRange(leg, t1 / cycle);
    LegPhaseRange(leg, t2 / cycle);
    CoxaWithinSwing(terms.lift, q, swing);
    var turns := t2 / cycle - t1 / cycle;
    assert turns == (t2 - t1) / cycle;
    assert Pace(g, t2 - t1) == 6.0 * turns + 1.5 * BlendShare(g, t2 - t1);
    var (u, v, d) := (CycleShape(terms.lift, p, swing).0, CycleShape(terms.lift, q, swing).0, leg.direction);
    BlendedSpread(u, v, d, Amplitude(g, t1), Amplitude(g, t2), swing, turns, BlendShare(g, t2 - t1));
  }

  lemma LegPhaseRange(leg: Leg, x: real)
    ensures 0.0 <= LegPhase(leg, Fract(x)) < 1.0
  {
  }

  /** Two curve values, each scaled by its amplitude. */
  lemma BlendedSpread(u: real, v: real, d: Direction, a: real, b: real, swing: real, turns: real, share: real)
    requires 0.0 <= a <= 1.0 && 0.0 <= b <= 1.0 && Abs(v) <= Abs(swing)
    requires Distance(u, v) <= 6.0 * Product(Abs(swing), turns) && Distance(a, b) <= 1.5 * share
    ensures Distance(Blended(u, d, a), Blended(v, d, b)) <= Product(Abs(swing), 6.0 * turns + 1.5 * share)
  {
    hide Product, Abs, Blended;
    BlendedTerms(u, v, d, a, b);
    var (k, x, y) := (Abs(swing), Product(u - v, a), Product(v, a - b));
    PaceTerms(k, turns, share);
    Scaled(u - v, a);
    Scaled(v, a - b);
    AbsFacts(u - v, a, a - b);
    ProductGrows(Abs(u - v), a, 1.0);
    ProductWithOne(Abs(u - v));
    ProductSwaps(Abs(v), Abs(a - b));
    ProductSwaps(k, Abs(a - b));
    ProductGrows(Abs(a - b), Abs(v), k);
    AbsFacts(swing, a, a - b);
    ProductGrows(k, Abs(a - b), 1.5 * share);
  }

  lemma BlendedTerms(u: real, v: real, d: Direction, a: real, b: real)
    ensures Distance(Blended(u, d, a), Blended(v, d, b)) <= Abs(Product(u - v, a)) + Abs(Product(v, a - b))
  {
    assert u * a - v * b == Product(u - v, a) + Product(v, a - b);
    hide Product;
    match d
    case Forward => assert Blended(u, d, a) == u * a && Blended(v, d, b) == v * b;
    case Backward => assert Blended(u, d, a) == -(u * a) && Blended(v, d, b) == -(v * b);
    case Still =>
  }

  lemma PaceTerms(k: real, turns: real, share: real)
    ensures Product(k, 6.0 * turns + 1.5 * share) == 6.0 * Product(k, turns) + Product(k, 1.5 * share)
  {
  }

  lemma AbsFacts(x: real, a: real, y: real)
    ensures Abs(x) >= 0.0 && Abs(y) >= 0.0 && (a >= 0.0 ==> Abs(a) == a)
  {
  }

  lemma ProductSwaps(a: real, b: real)
    ensures Product(a, b) == Product(b, a)
  {
  }

  /** An offset in degrees, in ticks of the servo's own sense. */
  function InTicks(s: Servo, degrees: real): real { degrees * TicksPerDegree(s.sign) }

  lemma InTicksSpread(s: Servo, x: real, y: real)
    ensures Distance(InTicks(s, x), InTicks(s, y)) == Distance(x, y) * 4096.0 / 360.0
  {
    if s.sign == 1 {
      assert InTicks(s, x) == x * (4096.0 / 360.0) && InTicks(s, y) == y * (4096.0 / 360.0);
    } else {
      assert InTicks(s, x) == -(x * (4096.0 / 360.0)) && InTicks(s, y) == -(y * (4096.0 / 360.0));
    }
  }

  lemma TicksOfOffset(s: Servo, angle: real, offset: real)
    ensures TicksOf(s, angle + offset) == TickOf(s.zero + InTicks(s, angle) + InTicks(s, offset))
  {
    TicksOfAngle(s, angle + offset);
    InTicksAdds(s, angle, offset);
    hide TicksOf, InTicks, TickOf;
    assert s.zero + InTicks(s, angle + offset) == s.zero + InTicks(s, angle) + InTicks(s, offset);
  }

  lemma TicksOfAngle(s: Servo, angle: real)
    ensures TicksOf(s, angle) == TickOf(s.zero + InTicks(s, angle))
  {
  }

  lemma InTicksAdds(s: Servo, x: real, y: real)
    ensures InTicks(s, x + y) == InTicks(s, x) + InTicks(s, y)
  {
    hide TicksPerDegree;
  }

  /** At any two times of the walk the coxa commands of a leg differ by at most what its swing
      allows for the cycles and the part of the startup blend between them, and a tick of
      rounding. */
  lemma WalkRateBound(g: GaitConfig, terms: Terms, legs: seq<Leg>, base: Pose, e1: real, e2: real,
                      walkSeconds: Option<real>, i: nat)
    requires WellFormed(legs) && Captured(legs, base) && i < |legs| && e1 <= e2
    requires Walking(g, e1, walkSeconds) && Walking(g, e2, walkSeconds)
    ensures var (x, y) := (TripodGaitPose(g, terms, legs, base, e1, walkSeconds),
                           TripodGaitPose(g, terms, legs, base, e2, walkSeconds));
            var (id, swing) := (legs[i].coxa.id, Swing(terms, legs[i], base));
            && id in x && id in y
            && Distance(x[id] as real, y[id] as real)
               <= Product(Abs(swing), Pace(g, e2 - e1)) * 4096.0 / 360.0 + 1.0
  {
    hide TicksOf, AngleOf, CoxaOffset, TripodGaitPose, Captured, WellFormed, InTicks, TickOf, Pace, Product, Swing,
      Abs, Distance, SettleTime, LegOk;
    var (s, settle) := (legs[i].coxa, SettleTime(g));
    CoxaCommand(g, terms, legs, base, e1, walkSeconds, i);
    CoxaCommand(g, terms, legs, base, e2, walkSeconds, i);
    OffsetSpread(g, terms, legs[i], base, e1 - settle, e2 - settle);
    assert e2 - settle - (e1 - settle) == e2 - e1;
    var d1 := CoxaOffset(g, terms, legs[i], base, e1 - settle);
    var d2 := CoxaOffset(g, terms, legs[i], base, e2 - settle);
    var angle := AngleOf(s, base[s.id]);
    TicksOfOffset(s, angle, d1);
    TicksOfOffset(s, angle, d2);
    InTicksSpread(s, d1, d2);
    var from := s.zero + InTicks(s, angle);
    TickOfSpread(from + InTicks(s, d1), from + InTicks(s, d2));
    SameShift(from, InTicks(s, d1), InTicks(s, d2));
  }

  lemma SameShift(a: real, x: real, y: real)
    ensures Distance(a + x, a + y) == Distance(x, y)
  {
  }

  /** Where an offset from a captured tick takes a servo: as far as its range allows. */
  function Reached(s: Servo, captured: u16, offset: real): real {
    Clamp(captured as real + InTicks(s, offset), 0.0, 4095.0)
  }

  /** A command is the captured tick and its offset within the servo's range, to within one
      tick. */
  lemma OffsetShows(s: Servo, captured: u16, offset: real)
    requires Moderate(s.zero)
    ensures Distance(TicksOf(s, AngleOf(s, captured) + offset) as real, Reached(s, captured, offset)) <= 1.0
  {
    hide TicksOf, InTicks, TickOf, Moderate, Round;
    TicksOfOffset(s, AngleOf(s, captured), offset);
    WholeAngle(s, captured);
    RoundNearest(captured as real - s.zero);
    TickNearClamp(s.zero + InTicks(s, AngleOf(s, captured)) + InTicks(s, offset),
                  captured as real + InTicks(s, offset));
  }

  /** Rounding and clamping commute to within half a tick. */
  lemma TickNearClamp(x: real, y: real)
    requires Distance(x, y) <= 0.5
    ensures Distance(TickOf(x) as real, Clamp(y, 0.0, 4095.0)) <= 1.0
  {
    RoundNearest(x);
    hide Round;
  }

  lemma WholeAngle(s: Servo, captured: u16)
    requires Moderate(s.zero)
    ensures InTicks(s, AngleOf(s, captured)) == Round(captured as real - s.zero) as real
  {
    AngleInTicks(s.zero, s.sign, captured);
  }

  // ------------------------------------------------------------------- the swinging legs

  /** The ticks an angle in degrees is worth, in the servo's own sense. */
  lemma InTicksIs(s: Servo, degrees: real)
    ensures InTicks(s, degrees) == 4096.0 / 360.0 * s.sign as real * degrees
  {
  }

  /** Where a leg is in its own cycle: the second tripod half a cycle from the first. */
  function OwnPhase(leg: Leg, phase: real): real {
    if leg.tripodA then phase else if phase < 0.5 then phase + 0.5 else phase - 0.5
  }

  /** How far forward in its swing a coxa is: eased from the back to the front in the first half
      of the cycle, evenly back in the second. */
  function Swung(own: real): real {
    if own < 0.5 then 2.0 * Smoothstep(2.0 * own) - 1.0 else 3.0 - 4.0 * own
  }

  /** How far a foot is lifted: by the lift arc in the first half of the cycle only. */
  function Lifted(lift: real -> real, own: real): real {
    if own < 0.5 && lift(2.0 * own) > 0.0 then lift(2.0 * own) else 0.0
  }

  function Sense(d: Direction): real {
    if d == Forward then 1.0 else if d == Backward then -1.0 else 0.0
  }

  /** A command that is the captured tick and an offset in degrees, within the range of a servo,
      to within one tick. */
  predicate Near(command: u16, captured: u16, sign: Sign, degrees: real) {
    Distance(command as real, Clamp(captured as real + 4096.0 / 360.0 * sign as real * degrees, 0.0, 4095.0)) <= 1.0
  }

  /** The offsets of a walking leg, in degrees: the coxa swings in the sense of the motion, at
      the amplitude of the blend; femur and tibia are lifted while it swings forward. */
  function Offsets(terms: Terms, leg: Leg, base: Pose, phase: real, amplitude: real): Angles {
    var (own, profile) := (OwnPhase(leg, phase), terms.profile(leg, SemanticPose(terms, leg, base)));
    Angles(profile.coxaSwing * Swung(own) * Sense(leg.direction) * amplitude,
           profile.femurLift * Lifted(terms.lift, own),
           profile.tibiaLift * Lifted(terms.lift, own))
  }

  /** A pose that has a leg's joints at these offsets. */
  predicate LegNear(leg: Leg, pose: Pose, base: Pose, offsets: Angles) {
    && Servos(leg) <= pose.Keys && Servos(leg) <= base.Keys
    && Near(pose[leg.coxa.id], base[leg.coxa.id], leg.coxa.sign, offsets.coxa)
    && Near(pose[leg.femur.id], base[leg.femur.id], leg.femur.sign, offsets.femur)
    && Near(pose[leg.tibia.id], base[leg.tibia.id], leg.tibia.sign, offsets.tibia)
  }

  /** Every leg of the walking pose, supporting or swinging, has its offsets. */
  lemma WalkingLegAt(terms: Terms, legs: seq<Leg>, base: Pose, phase: real, amplitude: real, i: nat)
    requires WellFormed(legs) && Captured(legs, base) && 0.0 <= phase < 1.0 && i < |legs|
    ensures LegNear(legs[i], WalkPose(terms, legs, |legs|, base, phase, amplitude), base,
                    Offsets(terms, legs[i], base, phase, amplitude))
  {
    hide WalkPose, LegTarget, TicksOf, AngleOf, Near, SemanticPose, Captured, WellFormed, Offsets;
    CapturedLeg(legs, base, i);
    WalkPoseAt(terms, legs, |legs|, base, phase, amplitude, i);
    var (leg, offsets) := (legs[i], Offsets(terms, legs[i], base, phase, amplitude));
    TargetIs(terms, leg, base, phase, amplitude);
    OffsetIsNear(leg.coxa, base[leg.coxa.id], offsets.coxa);
    OffsetIsNear(leg.femur, base[leg.femur.id], offsets.femur);
    OffsetIsNear(leg.tibia, base[leg.tibia.id], offsets.tibia);
  }

  lemma OffsetIsNear(s: Servo, captured: u16, degrees: real)
    requires Moderate(s.zero)
    ensures Near(TicksOf(s, AngleOf(s, captured) + degrees), captured, s.sign, degrees)
  {
    OffsetShows(s, captured, degrees);
    InTicksIs(s, degrees);
    hide TicksOf, AngleOf, InTicks;
  }

  lemma ShapeIs(lift: real -> real, leg: Leg, phase: real, swing: real)
    requires 0.0 <= phase < 1.0
    ensures var (own, shape) := (OwnPhase(leg, phase), CycleShape(lift, LegPhase(leg, phase), swing));
            shape.0 == Product(swing, Swung(own)) && shape.1 == Lifted(lift, own)
  {
    OwnIsLegPhase(leg, phase);
    hide LegPhase, OwnPhase;
    var own := OwnPhase(leg, phase);
    SwingScales(lift, own, swing);
    assert own / 0.5 == 2.0 * own;
    hide Smoothstep;
  }

  lemma OwnIsLegPhase(leg: Leg, phase: real)
    requires 0.0 <= phase < 1.0
    ensures LegPhase(leg, phase) == OwnPhase(leg, phase) && 0.0 <= OwnPhase(leg, phase) < 1.0
  {
    FractHalf(phase);
  }

  lemma SenseIs(d: Direction)
    ensures DirectionSign(d) == Sense(d)
  {
  }

  lemma TargetIs(terms: Terms, leg: Leg, base: Pose, phase: real, amplitude: real)
    requires Servos(leg) <= base.Keys && 0.0 <= phase < 1.0
    ensures leg.coxa.id in base && leg.femur.id in base && leg.tibia.id in base
    ensures var (target, offsets) := (LegTarget(terms, leg, base, phase, amplitude),
                                      Offsets(terms, leg, base, phase, amplitude));
            && target.coxa == AngleOf(leg.coxa, base[leg.coxa.id]) + offsets.coxa
            && target.femur == AngleOf(leg.femur, base[leg.femur.id]) + offsets.femur
            && target.tibia == AngleOf(leg.tibia, base[leg.tibia.id]) + offsets.tibia
  {
    hide AngleOf, CycleShape, LegPhase, OwnPhase, Swung, Lifted, Sense, DirectionSign;
    assert leg.coxa.id in Servos(leg) && leg.femur.id in Servos(leg) && leg.tibia.id in Servos(leg);
    ShapeIs(terms.lift, leg, phase, terms.profile(leg, SemanticPose(terms, leg, base)).coxaSwing);
    SenseIs(leg.direction);
  }

  /** The blend of the walk's beginning, in numbers. */
  function Blend(g: GaitConfig, t: real): real {
    if g.startupBlendSeconds <= 1.0 / 8388608.0 then 1.0 else Smoothstep(t / g.startupBlendSeconds)
  }

  lemma BlendIsAmplitude(g: GaitConfig, t: real)
    ensures Amplitude(g, t) == Blend(g, t)
  {
    assert F32_EPSILON == 1.0 / 8388608.0;
    if g.startupBlendSeconds > F32_EPSILON {
      ClampTwice(t / g.startupBlendSeconds);
    }
  }

  lemma ClampTwice(x: real)
    ensures Smoothstep(Clamp01(x)) == Smoothstep(x)
  {
  }

  /** The walk in time: for at least a quarter of a second the captured pose is held; then every
      leg has its offsets at the phase of its cycle, of at least half a second, and at the
      amplitude of the blend; from the limit on, if there is one, the captured pose again. */
  lemma TripodCommandAt(g: GaitConfig, terms: Terms, legs: seq<Leg>, base: Pose, elapsed: real,
                        walkSeconds: Option<real>, i: nat)
    requires WellFormed(legs) && Captured(legs, base) && i < |legs|
    ensures var settle := if g.settleSeconds > 0.25 then g.settleSeconds else 0.25;
            var cycle := if g.cycleSeconds > 0.5 then g.cycleSeconds else 0.5;
            var (pose, t) := (TripodGaitPose(g, terms, legs, base, elapsed, walkSeconds), elapsed - settle);
            if t < 0.0 || (walkSeconds.Some? && t >= walkSeconds.value) then pose == base
            else
              Walks(terms, legs[i], pose, base, t / cycle, Blend(g, t))
  {
    var (t, cycle) := (elapsed - SettleTime(g), CycleTime(g));
    BlendIsAmplitude(g, t);
    FractIs(t / cycle);
    hide WalkPose, Amplitude, Blend, Offsets, LegNear, WellFormed, Captured, Fract;
    if t >= 0.0 && (walkSeconds.None? || t < walkSeconds.value) {
      var phase := Fract(t / cycle);
      WalkingLegAt(terms, legs, base, phase, Amplitude(g, t), i);
      assert AtPhase(t / cycle, (t / cycle).Floor, phase);
    }
  }

  /** Whole cycles and the part of the current one. */
  predicate AtPhase(cycles: real, turns: int, phase: real) {
    0.0 <= phase < 1.0 && cycles == turns as real + phase
  }

  /** A pose has a leg's offsets at the phase that many cycles have come to. */
  ghost predicate Walks(terms: Terms, leg: Leg, pose: Pose, base: Pose, cycles: real, amplitude: real) {
    exists turns, phase :: AtPhase(cycles, turns, phase)
                           && LegNear(leg, pose, base, Offsets(terms, leg, base, phase, amplitude))
  }

  lemma FractIs(x: real)
    ensures 0.0 <= Fract(x) < 1.0 && AtPhase(x, x.Floor, Fract(x))
  {
  }

  /** The feet of a swinging tripod leave the ground: a quarter into its own cycle a leg with a
      lift worth more than a tick has its femur off the captured tick, in its own sense. */
  lemma SwingingFootLeavesGround(terms: Terms, legs: seq<Leg>, base: Pose, phase: real, amplitude: real, i: nat)
    requires WellFormed(legs) && Captured(legs, base) && i < |legs| && legs[i].femur.id in base
    requires phase == if legs[i].tripodA then 0.25 else 0.75
    requires var lift := terms.profile(legs[i], SemanticPose(terms, legs[i], base)).femurLift * terms.lift(0.5);
             var reached := base[legs[i].femur.id] as real + 4096.0 / 360.0 * legs[i].femur.sign as real * lift;
             terms.lift(0.5) > 0.0 && 4096.0 / 360.0 * Abs(lift) > 1.0 && 0.0 <= reached <= 4095.0
    ensures var (pose, femur) := (WalkPose(terms, legs, |legs|, base, phase, amplitude), legs[i].femur);
            var lift := terms.profile(legs[i], SemanticPose(terms, legs[i], base)).femurLift * terms.lift(0.5);
            && femur.id in pose && pose[femur.id] != base[femur.id]
            && (pose[femur.id] > base[femur.id] <==> femur.sign as real * lift > 0.0)
  {
    hide WalkPose, SemanticPose, WellFormed, Captured, Smoothstep, Near;
    WalkingLegAt(terms, legs, base, phase, amplitude, i);
    var (leg, profile) := (legs[i], terms.profile(legs[i], SemanticPose(terms, legs[i], base)));
    assert leg.femur.id in Servos(leg);
    MidLift(terms.lift, leg, phase);
    var pose := WalkPose(terms, legs, |legs|, base, phase, amplitude);
    var degrees := Offsets(terms, leg, base, phase, amplitude).femur;
    assert degrees == profile.femurLift * terms.lift(0.5);
    hide Offsets;
    LeavesTick(pose[leg.femur.id], base[leg.femur.id], leg.femur.sign, degrees);
  }

  lemma MidLift(lift: real -> real, leg: Leg, phase: real)
    requires phase == (if leg.tripodA then 0.25 else 0.75) && lift(0.5) > 0.0
    ensures Lifted(lift, OwnPhase(leg, phase)) == lift(0.5)
  {
    assert 2.0 * 0.25 == 0.5;
  }

  lemma LeavesTick(command: u16, captured: u16, sign: Sign, degrees: real)
    requires Near(command, captured, sign, degrees) && 4096.0 / 360.0 * Abs(degrees) > 1.0
    requires 0.0 <= captured as real + 4096.0 / 360.0 * sign as real * degrees <= 4095.0
    ensures command != captured && (command > captured <==> sign as real * degrees > 0.0)
  {
    if sign == 1 {
      assert 4096.0 / 360.0 * sign as real * degrees == 4096.0 / 360.0 * degrees && sign as real * degrees == degrees;
    } else {
      assert 4096.0 / 360.0 * sign as real * degrees == -(4096.0 / 360.0 * degrees);
      assert sign as real * degrees == -degrees;
    }
  }

  // ------------------------------------------------------------------- the walk's limit

  /** The walk stops where it is: at its limit the command for a coxa goes at once to the
      captured tick, from the tick its offset has taken it to. */
  lemma HaltJumps(g: GaitConfig, terms: Terms, legs: seq<Leg>, base: Pose, e: real, limit: real, i: nat)
    requires WellFormed(legs) && Captured(legs, base) && i < |legs|
    requires limit > 0.0 && SettleTime(g) <= e < SettleTime(g) + limit
    ensures var (last, halted) := (TripodGaitPose(g, terms, legs, base, e, Some(limit)),
                                   TripodGaitPose(g, terms, legs, base, SettleTime(g) + limit, Some(limit)));
            var (coxa, offset) := (legs[i].coxa, CoxaOffset(g, terms, legs[i], base, e - SettleTime(g)));
            && coxa.id in last && coxa.id in halted && halted == base
            && Distance(last[coxa.id] as real, Reached(coxa, halted[coxa.id], offset)) <= 1.0
  {
    hide TicksOf, AngleOf, CoxaOffset, Captured, WellFormed, InTicks, TickOf, WalkPose, Reached;
    HeldOutsideTheWalk(g, terms, legs, base, SettleTime(g) + limit, limit);
    CoxaCommand(g, terms, legs, base, e, Some(limit), i);
    hide TripodGaitPose;
    OffsetShows(legs[i].coxa, base[legs[i].coxa.id], CoxaOffset(g, terms, legs[i], base, e - SettleTime(g)));
  }

  lemma SmoothstepPositive(x: real)
    requires x > 0.0
    ensures Smoothstep(x) > 0.0
  {
    SmoothstepRange(x);
    SmoothstepRange(0.0);
    if x < 1.0 {
      SmoothstepRises(0.0, x);
    }
  }

  lemma QuotientPositive(a: real, b: real)
    requires a > 0.0 && b > 0.0
    ensures a / b > 0.0
  {
  }

  lemma AmplitudePositive(g: GaitConfig, t: real)
    requires t > 0.0
    ensures Amplitude(g, t) > 0.0
  {
    hide Smoothstep;
    var blend := Max(g.startupBlendSeconds, 0.0);
    if blend > F32_EPSILON {
      QuotientPositive(t, blend);
      SmoothstepPositive(Clamp01(t / blend));
    }
  }

  /** The coxa crosses the middle of its swing twice a cycle. */
  lemma UnitSwingZero(phase: real)
    requires 0.0 <= phase < 1.0
    ensures UnitSwing(phase) == 0.0 <==> phase == 0.25 || phase == 0.75
  {
    if phase < 0.25 {
      SmoothstepRises(2.0 * phase, 0.5);
    } else if 0.25 < phase < 0.5 {
      SmoothstepRises(0.5, 2.0 * phase);
    }
  }

  lemma BlendedZero(u: real, d: Direction, amplitude: real)
    requires amplitude != 0.0
    ensures Blended(u, d, amplitude) == 0.0 <==> u == 0.0 || d == Still
  {
    assert Blended(u, d, amplitude) == Product(Product(u, DirectionSign(d)), amplitude);
    hide Product, Blended;
    ProductSign(u, DirectionSign(d));
    ProductSign(Product(u, DirectionSign(d)), amplitude);
  }

  /** The limit falls a quarter or three quarters into a cycle. */
  predicate MidSwing(g: GaitConfig, limit: real) {
    var phase := Fract(limit / CycleTime(g));
    phase == 0.25 || phase == 0.75
  }

  lemma LegMidSwing(g: GaitConfig, leg: Leg, limit: real)
    ensures var phase := LegPhase(leg, Fract(limit / CycleTime(g)));
            0.0 <= phase < 1.0 && (phase == 0.25 || phase == 0.75 <==> MidSwing(g, limit))
  {
    hide CycleTime;
    var x := limit / CycleTime(g);
    LegPhaseRange(leg, x);
    FractHalf(Fract(x));
  }

  /** At the limit a coxa is at its captured angle exactly when the leg stands still, has no
      swing, or the limit falls a quarter or three quarters into a cycle. */
  lemma OffsetVanishesIff(g: GaitConfig, terms: Terms, leg: Leg, base: Pose, limit: real)
    requires limit > 0.0
    ensures CoxaOffset(g, terms, leg, base, limit) == 0.0
       <==> leg.direction == Still || Swing(terms, leg, base) == 0.0 || MidSwing(g, limit)
  {
    hide CycleShape, Blended, UnitSwing, LegPhase, Amplitude, Fract, CycleTime, Swing, MidSwing, Product;
    var (phase, swing) := (LegPhase(leg, Fract(limit / CycleTime(g))), Swing(terms, leg, base));
    AmplitudePositive(g, limit);
    LegMidSwing(g, leg, limit);
    SwingScales(terms.lift, phase, swing);
    UnitSwingZero(phase);
    ProductSign(swing, UnitSwing(phase));
    BlendedZero(CycleShape(terms.lift, phase, swing).0, leg.direction, Amplitude(g, limit));
  }

  /** The halt keeps the walk's own rate bound: no coxa command of the walk is further from the
      captured tick than the bound allows for the time left. */
  ghost predicate KeepsRate(g: GaitConfig, terms: Terms, legs: seq<Leg>, base: Pose, limit: real, i: nat)
    requires i < |legs|
  {
    forall e :: SettleTime(g) <= e < SettleTime(g) + limit ==> KeepsRateAt(g, terms, legs, base, limit, i, e)
  }

  ghost predicate KeepsRateAt(g: GaitConfig, terms: Terms, legs: seq<Leg>, base: Pose, limit: real, i: nat, e: real)
    requires i < |legs|
  {
    var end := SettleTime(g) + limit;
    var (last, halted) := (TripodGaitPose(g, terms, legs, base, e, Some(limit)),
                           TripodGaitPose(g, terms, legs, base, end, Some(limit)));
    var id := legs[i].coxa.id;
    && id in last && id in halted
    && Distance(last[id] as real, halted[id] as real)
       <= Product(Abs(Swing(terms, legs[i], base)), Pace(g, end - e)) * 4096.0 / 360.0 + 1.0
  }

  /** A command for a small offset stays near the captured tick. */
  lemma CommandNearCaptured(s: Servo, captured: u16, offset: real, most: real)
    requires Moderate(s.zero) && captured <= MAX_TICK && Abs(offset) <= most
    ensures Distance(TicksOf(s, AngleOf(s, captured) + offset) as real, captured as real) <= most * 4096.0 / 360.0 + 1.0
  {
    hide TicksOf, InTicks, TickOf, Moderate, Round;
    TicksOfOffset(s, AngleOf(s, captured), offset);
    WholeAngle(s, captured);
    RoundNearest(captured as real - s.zero);
    InTicksSpread(s, offset, 0.0);
    NoOffset(s);
    TickNearTick(s.zero + InTicks(s, AngleOf(s, captured)) + InTicks(s, offset), captured, most * 4096.0 / 360.0 + 0.5);
  }

  lemma NoOffset(s: Servo)
    ensures InTicks(s, 0.0) == 0.0
  {
  }

  lemma TickNearTick(x: real, n: u16, most: real)
    requires n <= MAX_TICK && Distance(x, n as real) <= most
    ensures Distance(TickOf(x) as real, n as real) <= most + 0.5
  {
    RoundNearest(x);
    ClampShrinks(Round(x), n);
    hide Round;
  }

  /** Where the offset vanishes at the limit, the walk's bound holds across the halt. */
  lemma HaltKeepsRate(g: GaitConfig, terms: Terms, legs: seq<Leg>, base: Pose, limit: real, i: nat)
    requires WellFormed(legs) && Captured(legs, base) && i < |legs| && limit > 0.0
    requires CoxaOffset(g, terms, legs[i], base, limit) == 0.0
    ensures KeepsRate(g, terms, legs, base, limit, i)
  {
    hide TicksOf, AngleOf, CoxaOffset, WellFormed, Captured, WalkPose, Swing, Pace, Product, Distance, Abs, SettleTime,
      LegOk;
    var settle := SettleTime(g);
    forall e | settle <= e < settle + limit
      ensures KeepsRateAt(g, terms, legs, base, limit, i, e)
    {
      HeldOutsideTheWalk(g, terms, legs, base, settle + limit, limit);
      CoxaCommand(g, terms, legs, base, e, Some(limit), i);
      hide TripodGaitPose;
      OffsetSpread(g, terms, legs[i], base, e - settle, limit);
      var offset := CoxaOffset(g, terms, legs[i], base, e - settle);
      FromNought(offset);
      assert limit - (e - settle) == settle + limit - e;
      LegZero(legs[i]);
      CommandNearCaptured(legs[i].coxa, base[legs[i].coxa.id], offset,
                          Product(Abs(Swing(terms, legs[i], base)), Pace(g, settle + limit - e)));
    }
  }

  lemma FromNought(x: real)
    ensures Distance(x, 0.0) == Abs(x)
  {
  }

  lemma LegZero(leg: Leg)
    ensures LegOk(leg) ==> Moderate(leg.coxa.zero)
  {
  }

  /** No walk whose offset at the limit takes a coxa more than two ticks from where it was
      captured keeps the bound. */
  lemma HaltBreaksRate(g: GaitConfig, terms: Terms, legs: seq<Leg>, base: Pose, limit: real, i: nat)
    requires WellFormed(legs) && Captured(legs, base) && i < |legs| && limit > 0.0 && legs[i].coxa.id in base
    requires var (coxa, offset) := (legs[i].coxa, CoxaOffset(g, terms, legs[i], base, limit));
             Distance(base[coxa.id] as real, Reached(coxa, base[coxa.id], offset)) > 2.0
    ensures !KeepsRate(g, terms, legs, base, limit, i)
  {
    hide TripodGaitPose, CoxaOffset, WellFormed, Captured, Swing, Pace, Product, Distance, Abs, Reached;
    var (coxa, swing) := (legs[i].coxa, Swing(terms, legs[i], base));
    var offset := CoxaOffset(g, terms, legs[i], base, limit);
    var far := Distance(base[coxa.id] as real, Reached(coxa, base[coxa.id], offset));
    var m := SmallTime((far - 2.0) / 30.0, Product(Abs(swing), Pace(g, 1.0)), limit);
    var e := SettleTime(g) + limit - m;
    assert SettleTime(g) + limit - e == m && limit - (e - SettleTime(g)) == m;
    HaltJumps(g, terms, legs, base, e, limit, i);
    OffsetSpread(g, terms, legs[i], base, e - SettleTime(g), limit);
    PaceScales(g, Abs(swing), m);
    ReachedSpread(coxa, base[coxa.id], CoxaOffset(g, terms, legs[i], base, e - SettleTime(g)), offset);
    var last := TripodGaitPose(g, terms, legs, base, e, Some(limit));
    Triangle(base[coxa.id] as real, last[coxa.id] as real,
             Reached(coxa, base[coxa.id], CoxaOffset(g, terms, legs[i], base, e - SettleTime(g))),
             Reached(coxa, base[coxa.id], offset));
    assert !KeepsRateAt(g, terms, legs, base, limit, i, e);
  }

  lemma Triangle(a: real, b: real, c: real, d: real)
    ensures Distance(a, d) <= Distance(b, a) + Distance(b, c) + Distance(c, d)
  {
  }

  lemma PaceScales(g: GaitConfig, k: real, m: real)
    ensures Product(k, Pace(g, m)) == Product(Product(k, Pace(g, 1.0)), m)
  {
    PaceIsLinear(g, m);
    hide Pace;
    assert Product(k, Pace(g, 1.0) * m) == Product(Product(k, Pace(g, 1.0)), m);
  }

  lemma PaceIsLinear(g: GaitConfig, m: real)
    ensures Pace(g, m) == Pace(g, 1.0) * m
  {
    var (cycle, blend) := (CycleTime(g), Max(g.startupBlendSeconds, 0.0));
    assert m / cycle == 1.0 / cycle * m;
    if blend > F32_EPSILON {
      assert m / blend == 1.0 / blend * m;
    }
  }

  lemma ReachedSpread(s: Servo, captured: u16, x: real, y: real)
    ensures Distance(Reached(s, captured, x), Reached(s, captured, y)) <= Distance(x, y) * 4096.0 / 360.0
  {
    InTicksSpread(s, x, y);
    hide InTicks;
  }

  /** Whatever the profile makes a leg swing and wherever it was captured. */
  ghost predicate AlwaysKeepsRate(g: GaitConfig, legs: seq<Leg>, limit: real, i: nat)
    requires i < |legs|
  {
    forall terms, base :: Captured(legs, base) ==> KeepsRate(g, terms, legs, base, limit, i)
  }

  /** The exact condition for a smooth halt of a coxa, for every profile and captured pose: the
      leg stands still, or the limit falls a quarter or three quarters into a cycle. */
  lemma HaltKeepsRateIff(g: GaitConfig, legs: seq<Leg>, limit: real, i: nat)
    requires WellFormed(legs) && i < |legs| && limit > 0.0
    ensures AlwaysKeepsRate(g, legs, limit, i) <==> legs[i].direction == Still || MidSwing(g, limit)
  {
    hide KeepsRate, MidSwing, CoxaOffset, WellFormed, Captured, Swing;
    if legs[i].direction == Still || MidSwing(g, limit) {
      forall terms, base | Captured(legs, base)
        ensures KeepsRate(g, terms, legs, base, limit, i)
      {
        OffsetVanishesIff(g, terms, legs[i], base, limit);
        HaltKeepsRate(g, terms, legs, base, limit, i);
      }
    } else {
      var (terms, base) := (WideSwing(g, legs[i], limit), AllAt(legs, 2048));
      AllAtCaptured(legs, 2048);
      WideOffset(g, legs, limit, i);
      assert !KeepsRate(g, terms, legs, base, limit, i);
    }
  }

  ghost function AllAt(legs: seq<Leg>, ticks: u16): Pose {
    map id | id in AllServos(legs) :: ticks
  }

  ghost function AllServos(legs: seq<Leg>): set<u8> {
    set leg, id | leg in legs && id in Servos(leg) :: id
  }

  lemma AllAtCaptured(legs: seq<Leg>, ticks: u16)
    requires ticks <= MAX_TICK
    ensures Captured(legs, AllAt(legs, ticks))
    ensures forall i :: 0 <= i < |legs| ==>
              legs[i].coxa.id in AllAt(legs, ticks) && AllAt(legs, ticks)[legs[i].coxa.id] == ticks
  {
    forall i, id | 0 <= i < |legs| && id in Servos(legs[i])
      ensures id in AllAt(legs, ticks) && AllAt(legs, ticks)[id] == ticks
    {
      assert legs[i] in legs;
    }
    forall i | 0 <= i < |legs|
      ensures legs[i].coxa.id in AllAt(legs, ticks)
    {
      assert legs[i].coxa.id in Servos(legs[i]);
    }
  }

  /** What a swing of one degree would make of the offset at the limit. */
  function UnitOffset(g: GaitConfig, leg: Leg, limit: real): real {
    Blended(UnitSwing(LegPhase(leg, Fract(limit / CycleTime(g)))), leg.direction, Amplitude(g, limit))
  }

  ghost function SwingOf(swing: real): Terms {
    Terms((x: real) => 0.0, (leg: Leg) => Angles(0.0, 0.0, 0.0), (leg: Leg, a: Angles) => Profile(swing, 0.0, 0.0))
  }

  /** A swing that is ninety degrees out at the limit. */
  ghost function WideSwing(g: GaitConfig, leg: Leg, limit: real): Terms {
    var unit := UnitOffset(g, leg, limit);
    SwingOf(if unit == 0.0 then 0.0 else 90.0 / unit)
  }

  lemma UnitOffsetScales(g: GaitConfig, leg: Leg, base: Pose, limit: real, swing: real)
    ensures CoxaOffset(g, SwingOf(swing), leg, base, limit) == Product(swing, UnitOffset(g, leg, limit))
  {
    hide CycleShape, UnitSwing, LegPhase, Amplitude, Fract, CycleTime, DirectionSign;
    var (phase, amplitude) := (LegPhase(leg, Fract(limit / CycleTime(g))), Amplitude(g, limit));
    SwingScales(SwingOf(swing).lift, phase, swing);
    BlendScales(swing, UnitSwing(phase), leg.direction, amplitude);
    hide Blended, Product;
  }

  lemma BlendScales(k: real, u: real, d: Direction, amplitude: real)
    ensures Blended(Product(k, u), d, amplitude) == Product(k, Blended(u, d, amplitude))
  {
  }

  lemma WideOffset(g: GaitConfig, legs: seq<Leg>, limit: real, i: nat)
    requires WellFormed(legs) && i < |legs| && limit > 0.0
    requires legs[i].direction != Still && !MidSwing(g, limit)
    ensures !KeepsRate(g, WideSwing(g, legs[i], limit), legs, AllAt(legs, 2048), limit, i)
  {
    hide KeepsRate, MidSwing, CoxaOffset, WellFormed, Captured, InTicks, UnitOffset, AllAt, AllServos, Product, Swing;
    var (leg, base, unit) := (legs[i], AllAt(legs, 2048), UnitOffset(g, legs[i], limit));
    AllAtCaptured(legs, 2048);
    UnitOffsetScales(g, leg, base, limit, 1.0);
    SwingIs(leg, base, 1.0);
    OffsetVanishesIff(g, SwingOf(1.0), leg, base, limit);
    ProductSign(1.0, unit);
    var swing := 90.0 / unit;
    UnitOffsetScales(g, leg, base, limit, swing);
    RightAngle(unit);
    NinetyDegrees(leg.coxa);
    HaltBreaksRate(g, SwingOf(swing), legs, base, limit, i);
  }

  lemma SwingIs(leg: Leg, base: Pose, swing: real)
    ensures Swing(SwingOf(swing), leg, base) == swing
  {
  }

  lemma RightAngle(unit: real)
    requires unit != 0.0
    ensures Product(90.0 / unit, unit) == 90.0
  {
  }

  lemma NinetyDegrees(s: Servo)
    ensures Distance(2048.0, Reached(s, 2048, 90.0)) == 1024.0
  {
  }

  /** And then the other joints jump: at such a limit the legs of one tripod are in the middle
      of their lift. */
  lemma MidSwingIsMidLift(g: GaitConfig, lift: real -> real, leg: Leg, limit: real, swing: real)
    requires MidSwing(g, limit) && leg.tripodA == (Fract(limit / CycleTime(g)) == 0.25)
    ensures CycleShape(lift, LegPhase(leg, Fract(limit / CycleTime(g))), swing).1 == Max(lift(0.5), 0.0)
  {
    hide Fract, CycleTime;
    var phase := Fract(limit / CycleTime(g));
    FractHalf(phase);
    assert LegPhase(leg, phase) == 0.25;
  }

  /** With a cycle of one second and a walk of 0.95 s, a leg of the first tripod that swings
      ten degrees is stopped nearly eight degrees behind: in the last tenth of a millisecond
      its coxa is sent 89 ticks or more. */
  lemma HaltMidCycle(g: GaitConfig, terms: Terms, legs: seq<Leg>, base: Pose, i: nat)
    requires WellFormed(legs) && Captured(legs, base) && i < |legs|
    requires g.cycleSeconds == 1.0 && g.startupBlendSeconds == 0.0
    requires legs[i].tripodA && legs[i].direction == Forward && Swing(terms, legs[i], base) == 10.0
    requires legs[i].coxa.id in base && 100 <= base[legs[i].coxa.id] <= 3995
    ensures var (e, end) := (SettleTime(g) + 0.9499, SettleTime(g) + 0.95);
            var (last, halted) := (TripodGaitPose(g, terms, legs, base, e, Some(0.95)),
                                   TripodGaitPose(g, terms, legs, base, end, Some(0.95)));
            var id := legs[i].coxa.id;
            id in last && id in halted && Distance(last[id] as real, halted[id] as real) >= 89.0
  {
    OffsetMidCycle(g, terms, legs[i], base);
    SemanticInTicks(legs[i].coxa);
    hide CoxaOffset, InTicks, TripodGaitPose, WellFormed, Captured, SettleTime;
    var e := SettleTime(g) + 0.9499;
    assert e - SettleTime(g) == 0.9499;
    HaltJumps(g, terms, legs, base, e, 0.95, i);
  }

  lemma OffsetMidCycle(g: GaitConfig, terms: Terms, leg: Leg, base: Pose)
    requires g.cycleSeconds == 1.0 && g.startupBlendSeconds == 0.0
    requires leg.tripodA && leg.direction == Forward && Swing(terms, leg, base) == 10.0
    ensures CoxaOffset(g, terms, leg, base, 0.9499) == -7.996
  {
    FloorUnique(0.9499, 0);
    SwingScales(terms.lift, 0.9499, Swing(terms, leg, base));
  }

  lemma SemanticInTicks(s: Servo)
    ensures 90.0 <= Abs(InTicks(s, -7.996)) <= 91.0
  {
  }

  // ------------------------------------------------------------- the core crate's walk

  function LerpI16(start: i16, end: i16, t: real): int { Round(Lerp(start as real, end as real, t)) }

  /** The cycle in whole ticks. The source doubles the stride in `i16`. */
  function CycleShapeTicks(lift: real -> real, phase: real, stride: i16): (int, real)
    requires -0x4000 < stride < 0x4000
  {
    if phase < 0.5 then
      var t := phase / 0.5;
      (LerpI16(-stride, stride, Smoothstep(t)), Max(lift(t), 0.0))
    else
      (LerpI16(stride, -stride, (phase - 0.5) / 0.5), 0.0)
  }

  /** In ticks the cycle is the rounded curve of the same swing, and stays within it. */
  lemma TicksRoundTheCurve(lift: real -> real, phase: real, stride: i16)
    requires 0.0 <= phase < 1.0 && -0x4000 < stride < 0x4000
    ensures var (ticks, curve) := (CycleShapeTicks(lift, phase, stride), CycleShape(lift, phase, stride as real));
            ticks == (Round(curve.0), curve.1) && Abs(ticks.0 as real) <= Magnitude(stride) as real
  {
    var x := CycleShape(lift, phase, stride as real).0;
    var most: int := Magnitude(stride);
    CoxaWithinSwing(lift, phase, stride as real);
    assert (-stride) as real == -(stride as real);
    RoundMonotone(-(most as real), x);
    RoundMonotone(x, most as real);
    RoundUnique(most as real, most);
    RoundUnique(-(most as real), -most);
    hide Smoothstep;
  }

  /** One joint of the core crate's slow walk: the stand tick offset by the rounded lift. */
  function SlowWalkLift(stand: u16, sign: Sign, liftTicks: i16, ratio: real): u16 {
    OffsetTicks(stand, Round(sign as real * liftTicks as real * ratio))
  }

  /** A joint of the slow walk is lifted from its stand tick by its lift in ticks, in its sense and
      within the range, as far as the leg's lift ratio says, to half a tick. */
  lemma SlowWalkLifts(stand: u16, sign: Sign, liftTicks: i16, ratio: real)
    ensures Distance(SlowWalkLift(stand, sign, liftTicks, ratio) as real,
                     Clamp(stand as real + sign as real * liftTicks as real * ratio, 0.0, 4095.0)) <= 0.5
  {
    RoundNearest(sign as real * liftTicks as real * ratio);
    hide Round;
  }

  /** Supporting legs of the slow walk keep their stand ticks exactly. */
  lemma SlowWalkSupport(lift: real -> real, leg: Leg, phase: real, stride: i16, stand: u16, sign: Sign, liftTicks: i16)
    requires 0.0 <= phase < 1.0 && Supports(leg, phase) && -0x4000 < stride < 0x4000 && stand <= MAX_TICK
    ensures SlowWalkLift(stand, sign, liftTicks, CycleShapeTicks(lift, LegPhase(leg, phase), stride).1) == stand
  {
    FractHalf(phase);
    RoundUnique(0.0, 0);
  }
}
