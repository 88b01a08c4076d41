/** The staged stand-up: interpolated poses through four eased phases. */
module StandUp {
  import opened Words
  import opened Reals
  import opened Easing
  import opened Ticks

  datatype Leg = Leg(
    coxaId: u8, femurId: u8, tibiaId: u8,
    coxaZero: u16, femurZero: u16, tibiaZero: u16,
    femurLiftSign: Sign, tibiaLiftSign: Sign)

  datatype Config = Config(
    legs: seq<Leg>, durationSeconds: real, femurLiftTicks: i16, tibiaLiftTicks: i16)

  // --------------------------------------------------------------------- interpolation

  function Interpolated(start: Pose, end: Pose, t: real, id: u8): u16 {
    var a := if id in start then start[id] else 0;
    var b := if id in end then end[id] else a;
    TickOf(Lerp(a as real, b as real, Clamp01(t)))
  }

  function InterpolatePose(start: Pose, end: Pose, t: real): Pose {
    map id | id in start.Keys + end.Keys :: Interpolated(start, end, t, id)
  }

  method ComputeInterpolatedPose(start: Pose, end: Pose, t: real) returns (pose: Pose)
    ensures pose == InterpolatePose(start, end, t)
  {
    pose := map[];
    var allIds := start.Keys + end.Keys;
    var left := allIds;
    while left != {}
      invariant left <= allIds
      invariant pose == map id | id in allIds - left :: Interpolated(start, end, t, id)
      decreases left
    {
      var id :| id in left;
      var startTicks := if id in start then start[id] else 0;
      var endTicks := if id in end then end[id] else startTicks;
      pose := pose[id := TickOf(Lerp(startTicks as real, endTicks as real, Clamp01(t)))];
      left := left - {id};
    }
  }

  /** Interpolation starts at the start, ends at the end, and stays there; halfway it is in the
      middle. A servo missing at the end keeps its start, one missing at the start comes from 0. */
  lemma InterpolationEnds(start: Pose, end: Pose, t: real, id: u8)
    requires id in start || id in end
    requires (id in start ==> start[id] <= MAX_TICK) && (id in end ==> end[id] <= MAX_TICK)
    ensures var (pose, a) := (InterpolatePose(start, end, t), if id in start then start[id] else 0);
            && id in pose && (t <= 0.0 ==> pose[id] == a)
            && (t >= 1.0 || id !in end ==> pose[id] == if id in end then end[id] else start[id])
            && (t == 0.5 && id in end ==> Distance(pose[id] as real, (a + end[id]) as real / 2.0) <= 0.5)
  {
    var a: u16 := if id in start then start[id] else 0;
    var b: u16 := if id in end then end[id] else a;
    LerpEnds(a, b, t);
    hide TickOf, Lerp, Clamp01;
  }

  lemma LerpEnds(a: u16, b: u16, t: real)
    requires a <= MAX_TICK && b <= MAX_TICK
    ensures var tick := TickOf(Lerp(a as real, b as real, Clamp01(t)));
            && (t <= 0.0 || a == b ==> tick == a) && (t >= 1.0 ==> tick == b)
            && (t == 0.5 ==> Distance(tick as real, (a + b) as real / 2.0) <= 0.5)
  {
    var (x, y, u) := (a as real, b as real, Clamp01(t));
    LerpValues(x, y);
    RoundUnique(x, a);
    RoundUnique(y, b);
    if t == 0.5 {
      TickIsNearest(Lerp(x, y, 0.5));
    }
    if a == b {
      assert Lerp(x, y, u) == x;
    }
    hide Lerp, Round;
  }

  lemma LerpValues(x: real, y: real)
    ensures Lerp(x, y, 0.0) == x && Lerp(x, y, 1.0) == y && Lerp(x, y, 0.5) == (x + y) / 2.0
  {
  }

  // ------------------------------------------------------------------------- waypoints

  function AtLeast(x: int, floor: int): int { if x < floor then floor else x }

  function FemurPrepTicks(c: Config): int { AtLeast(Magnitude(c.femurLiftTicks), 12) * 6 }

  function TibiaPlantTicks(c: Config): int { AtLeast(Magnitude(c.tibiaLiftTicks), 18) * 5 }

  /** The tick offsets fit the source's `i16`, and no servo serves two joints. */
  ghost predicate WellFormed(c: Config) {
    && FemurPrepTicks(c) < 0x8000 && TibiaPlantTicks(c) < 0x8000
    && forall i, j :: 0 <= i < |c.legs| && 0 <= j < |c.legs| ==> Apart(c.legs[i], c.legs[j], i == j)
  }

  predicate Apart(a: Leg, b: Leg, same: bool) {
    && a.coxaId != b.femurId && a.coxaId != b.tibiaId && a.femurId != b.tibiaId
    && (!same ==> a.coxaId != b.coxaId && a.femurId != b.femurId && a.tibiaId != b.tibiaId)
  }

  function KnownTicks(base: Pose, layDown: Pose, id: u8, zero: u16): u16 {
    if id in base then base[id] else if id in layDown then layDown[id] else zero
  }

  /** The three intermediate poses, built leg by leg. */
  function FemurLift(c: Config, layDown: Pose, base: Pose, n: nat): Pose
    requires n <= |c.legs|
  {
    if n == 0 then base
    else
      var leg := c.legs[n - 1];
      var known := KnownTicks(base, layDown, leg.femurId, leg.femurZero);
      FemurLift(c, layDown, base, n - 1)[leg.femurId :=
        OffsetTicks(known, leg.femurLiftSign * FemurPrepTicks(c))]
  }

  function FootPlant(c: Config, layDown: Pose, base: Pose, lifted: Pose, n: nat): Pose
    requires n <= |c.legs|
  {
    if n == 0 then lifted
    else
      var leg := c.legs[n - 1];
      var known := KnownTicks(base, layDown, leg.tibiaId, leg.tibiaZero);
      FootPlant(c, layDown, base, lifted, n - 1)[leg.tibiaId :=
        OffsetTicks(known, -(leg.tibiaLiftSign * TibiaPlantTicks(c)))]
  }

  function BodyRaise(c: Config, layDown: Pose, base: Pose, target: Pose, n: nat): Pose
    requires n <= |c.legs|
  {
    if n == 0 then target
    else
      var leg := c.legs[n - 1];
      BodyRaise(c, layDown, base, target, n - 1)[leg.coxaId :=
        KnownTicks(base, layDown, leg.coxaId, leg.coxaZero)]
  }

  method ComputeFemurLift(c: Config, layDown: Pose, base: Pose) returns (pose: Pose)
    ensures pose == FemurLift(c, layDown, base, |c.legs|)
  {
    var femurTicks := FemurPrepTicks(c);
    pose := base;
    for n := 0 to |c.legs|
      invariant pose == FemurLift(c, layDown, base, n)
    {
      var leg := c.legs[n];
      var known := KnownTicks(base, layDown, leg.femurId, leg.femurZero);
      pose := pose[leg.femurId := OffsetTicks(known, leg.femurLiftSign * femurTicks)];
    }
  }

  method ComputeFootPlant(c: Config, layDown: Pose, base: Pose, lifted: Pose) returns (pose: Pose)
    ensures pose == FootPlant(c, layDown, base, lifted, |c.legs|)
  {
    var tibiaTicks := TibiaPlantTicks(c);
    pose := lifted;
    for n := 0 to |c.legs|
      invariant pose == FootPlant(c, layDown, base, lifted, n)
    {
      var leg := c.legs[n];
      var known := KnownTicks(base, layDown, leg.tibiaId, leg.tibiaZero);
      pose := pose[leg.tibiaId := OffsetTicks(known, -(leg.tibiaLiftSign * tibiaTicks))];
    }
  }

  method ComputeBodyRaise(c: Config, layDown: Pose, base: Pose, target: Pose) returns (pose: Pose)
    ensures pose == BodyRaise(c, layDown, base, target, |c.legs|)
  {
    pose := target;
    for n := 0 to |c.legs|
      invariant pose == BodyRaise(c, layDown, base, target, n)
    {
      var leg := c.legs[n];
      pose := pose[leg.coxaId := KnownTicks(base, layDown, leg.coxaId, leg.coxaZero)];
    }
  }

  // -------------------------------------------------------------------------- the phases

  function Duration(c: Config): real { Max(c.durationSeconds, 0.5) }

  function FemurPhase(d: real): (len: real)
    ensures len > 0.0
  {
    Max(d * 0.20, 0.1)
  }

  function TibiaPhase(d: real): (len: real)
    ensures len > 0.0
  {
    Max(d * 0.20, 0.1)
  }

  function BodyPhase(d: real): (len: real)
    ensures len > 0.0
  {
    Max(d * 0.45, 0.1)
  }

  function CoxaPhase(d: real): (len: real)
    ensures len > 0.0
  {
    Max(d - FemurPhase(d) - TibiaPhase(d) - BodyPhase(d), 0.1)
  }

  /** The stand-up takes the configured time, at least half a second: a fifth of it to lift, a fifth
      to plant, nearly half to rise and the rest for the coxae, each at least a tenth of a second. */
  lemma PhaseTimes(c: Config)
    ensures var d := Duration(c);
            && d >= 0.5 && d >= c.durationSeconds && (d == 0.5 || d == c.durationSeconds)
            && FemurPhase(d) == d / 5.0 && TibiaPhase(d) == d / 5.0 && BodyPhase(d) == d * 9.0 / 20.0
            && CoxaPhase(d) == if d * 3.0 / 20.0 > 0.1 then d * 3.0 / 20.0 else 0.1
  {
  }

  /** The way from `start` to `end`, eased, after `spent` of `len` seconds. */
  function Eased(start: Pose, end: Pose, spent: real, len: real): Pose
    requires len > 0.0
  {
    InterpolatePose(start, end, Smoothstep(Clamp01(spent / len)))
  }

  /** The pose of the running phase. */
  function PhasePose(base: Pose, lifted: Pose, planted: Pose, raised: Pose, target: Pose, d: real,
                     elapsed: real): Pose {
    var (f, t, b) := (FemurPhase(d), TibiaPhase(d), BodyPhase(d));
    if elapsed < f then Eased(base, lifted, elapsed, f)
    else if elapsed < f + t then Eased(lifted, planted, elapsed - f, t)
    else if elapsed < f + t + b then Eased(planted, raised, elapsed - f - t, b)
    else Eased(raised, target, elapsed - f - t - b, CoxaPhase(d))
  }

  function StagedStandUp(c: Config, layDown: Pose, base: Pose, target: Pose, elapsed: real): Pose {
    var d := Duration(c);
    if Clamp01(elapsed / d) >= 1.0 then target
    else
      var lifted := FemurLift(c, layDown, base, |c.legs|);
      var planted := FootPlant(c, layDown, base, lifted, |c.legs|);
      var raised := BodyRaise(c, layDown, base, target, |c.legs|);
      PhasePose(base, lifted, planted, raised, target, d, elapsed)
  }

  // ------------------------------------------------------------------- one servo's path

  /** The five ticks a servo passes through. */
  datatype Path = Path(a0: u16, a1: u16, a2: u16, a3: u16, a4: u16)

  ghost function ServoIds(c: Config): set<u8> {
    (set leg | leg in c.legs :: leg.coxaId) + (set leg | leg in c.legs :: leg.femurId)
    + (set leg | leg in c.legs :: leg.tibiaId)
  }

  /** A pose holding a legal position for exactly the configured servos. */
  ghost predicate Covers(c: Config, pose: Pose) {
    pose.Keys == ServoIds(c) && forall id :: id in pose ==> pose[id] <= MAX_TICK
  }

  lemma {:induction false} FemurLiftCovers(c: Config, layDown: Pose, base: Pose, n: nat)
    requires n <= |c.legs| && Covers(c, base)
    ensures Covers(c, FemurLift(c, layDown, base, n))
  {
    if n > 0 {
      FemurLiftCovers(c, layDown, base, n - 1);
      assert c.legs[n - 1] in c.legs;
    }
  }

  lemma {:induction false} FootPlantCovers(c: Config, layDown: Pose, base: Pose, lifted: Pose, n: nat)
    requires n <= |c.legs| && Covers(c, lifted)
    ensures Covers(c, FootPlant(c, layDown, base, lifted, n))
  {
    if n > 0 {
      FootPlantCovers(c, layDown, base, lifted, n - 1);
      assert c.legs[n - 1] in c.legs;
    }
  }

  lemma {:induction false} BodyRaiseCovers(c: Config, layDown: Pose, base: Pose, target: Pose, n: nat)
    requires n <= |c.legs| && Covers(c, base) && Covers(c, target)
    ensures Covers(c, BodyRaise(c, layDown, base, target, n))
  {
    if n > 0 {
      BodyRaiseCovers(c, layDown, base, target, n - 1);
      assert c.legs[n - 1] in c.legs;
      assert c.legs[n - 1].coxaId in base;
    }
  }

  /** Which joint of the robot the stand-up moves when: lifting moves only femurs, planting
      only tibias; while the body rises the coxae keep their starting ticks, and only they
      move in the last phase. */
  lemma {:induction false} FemurLiftAt(c: Config, layDown: Pose, base: Pose, n: nat, id: u8)
    requires n <= |c.legs| && WellFormed(c) && id in base
    requires forall i :: 0 <= i < n ==> c.legs[i].femurId != id
    ensures id in FemurLift(c, layDown, base, n) && FemurLift(c, layDown, base, n)[id] == base[id]
  {
    if n > 0 {
      FemurLiftAt(c, layDown, base, n - 1, id);
    }
  }

  lemma {:induction false} FootPlantAt(c: Config, layDown: Pose, base: Pose, lifted: Pose, n: nat, id: u8)
    requires n <= |c.legs| && WellFormed(c) && id in lifted
    requires forall i :: 0 <= i < n ==> c.legs[i].tibiaId != id
    ensures id in FootPlant(c, layDown, base, lifted, n)
         && FootPlant(c, layDown, base, lifted, n)[id] == lifted[id]
  {
    if n > 0 {
      FootPlantAt(c, layDown, base, lifted, n - 1, id);
    }
  }

  lemma {:induction false} BodyRaiseAt(c: Config, layDown: Pose, base: Pose, target: Pose, n: nat, id: u8)
    requires n <= |c.legs| && WellFormed(c) && id in target
    requires forall i :: 0 <= i < n ==> c.legs[i].coxaId != id
    ensures id in BodyRaise(c, layDown, base, target, n)
         && BodyRaise(c, layDown, base, target, n)[id] == target[id]
  {
    if n > 0 {
      BodyRaiseAt(c, layDown, base, target, n - 1, id);
    }
  }

  lemma {:induction false} BodyRaiseHoldsCoxa(c: Config, layDown: Pose, base: Pose, target: Pose, n: nat, i: nat)
    requires i < n <= |c.legs| && WellFormed(c)
    ensures var (pose, leg) := (BodyRaise(c, layDown, base, target, n), c.legs[i]);
            leg.coxaId in pose && StartsAt(base, layDown, leg.coxaId, leg.coxaZero, pose[leg.coxaId])
  {
    if i < n - 1 {
      BodyRaiseHoldsCoxa(c, layDown, base, target, n - 1, i);
      assert Apart(c.legs[i], c.legs[n - 1], false);
    }
  }

  /** Where a servo is taken to start: where it was measured, or else in the lay-down pose, or
      else at its zero. */
  ghost predicate StartsAt(base: Pose, layDown: Pose, id: u8, zero: u16, start: u16) {
    && (id in base ==> start == base[id])
    && (id !in base && id in layDown ==> start == layDown[id])
    && (id !in base && id !in layDown ==> start == zero)
  }

  /** A tick moved by an offset, held within 0 and 4095. */
  ghost predicate MovedWithin(tick: u16, start: u16, offset: int) {
    || (0 <= start + offset <= 4095 && tick == start + offset)
    || (start + offset < 0 && tick == 0) || (start + offset > 4095 && tick == 4095)
  }

  /** A femur is lifted from its start in its own lift direction, by six times the configured
      ticks, whatever their sign, at least 72. */
  lemma {:induction false} FemurLifted(c: Config, layDown: Pose, base: Pose, n: nat, i: nat)
    requires i < n <= |c.legs| && WellFormed(c)
    ensures var (pose, leg, ticks) := (FemurLift(c, layDown, base, n), c.legs[i], c.femurLiftTicks);
            var lift := if ticks > 12 then 6 * ticks else if ticks < -12 then -6 * ticks else 72;
            && leg.femurId in pose
            && exists start :: StartsAt(base, layDown, leg.femurId, leg.femurZero, start)
                               && MovedWithin(pose[leg.femurId], start, leg.femurLiftSign * lift)
  {
    var leg := c.legs[i];
    assert StartsAt(base, layDown, leg.femurId, leg.femurZero, KnownTicks(base, layDown, leg.femurId, leg.femurZero));
    if i < n - 1 {
      FemurLifted(c, layDown, base, n - 1, i);
      assert Apart(c.legs[i], c.legs[n - 1], false);
    }
  }

  /** A tibia is planted from its start against its lift direction, by five times the configured
      ticks, at least 90. */
  lemma {:induction false} FootPlanted(c: Config, layDown: Pose, base: Pose, lifted: Pose, n: nat, i: nat)
    requires i < n <= |c.legs| && WellFormed(c)
    ensures var (pose, leg, ticks) := (FootPlant(c, layDown, base, lifted, n), c.legs[i], c.tibiaLiftTicks);
            var plant := if ticks > 18 then 5 * ticks else if ticks < -18 then -5 * ticks else 90;
            && leg.tibiaId in pose
            && exists start :: StartsAt(base, layDown, leg.tibiaId, leg.tibiaZero, start)
                               && MovedWithin(pose[leg.tibiaId], start, -(leg.tibiaLiftSign * plant))
  {
    var leg := c.legs[i];
    assert StartsAt(base, layDown, leg.tibiaId, leg.tibiaZero, KnownTicks(base, layDown, leg.tibiaId, leg.tibiaZero));
    if i < n - 1 {
      FootPlanted(c, layDown, base, lifted, n - 1, i);
      assert Apart(c.legs[i], c.legs[n - 1], false);
    }
  }

  ghost function PathOf(c: Config, layDown: Pose, base: Pose, target: Pose, id: u8): Path
    requires Covers(c, base) && Covers(c, target) && id in ServoIds(c)
  {
    var lifted := FemurLift(c, layDown, base, |c.legs|);
    FemurLiftCovers(c, layDown, base, |c.legs|);
    var planted := FootPlant(c, layDown, base, lifted, |c.legs|);
    FootPlantCovers(c, layDown, base, lifted, |c.legs|);
    var raised := BodyRaise(c, layDown, base, target, |c.legs|);
    BodyRaiseCovers(c, layDown, base, target, |c.legs|);
    Path(base[id], lifted[id], planted[id], raised[id], target[id])
  }

  /** A coxa stays put through the first three phases and makes its whole way in the last;
      a femur or a tibia has arrived before the last phase. */
  lemma CoxaeMoveLast(c: Config, layDown: Pose, base: Pose, target: Pose, i: nat)
    requires WellFormed(c) && i < |c.legs| && Covers(c, base) && Covers(c, target)
    ensures c.legs[i].coxaId in ServoIds(c) && c.legs[i].femurId in ServoIds(c) && c.legs[i].tibiaId in ServoIds(c)
    ensures var p := PathOf(c, layDown, base, target, c.legs[i].coxaId);
            p.a0 == p.a1 == p.a2 == p.a3
    ensures PathOf(c, layDown, base, target, c.legs[i].femurId).a3
         == PathOf(c, layDown, base, target, c.legs[i].femurId).a4
    ensures PathOf(c, layDown, base, target, c.legs[i].tibiaId).a3
         == PathOf(c, layDown, base, target, c.legs[i].tibiaId).a4
  {
    var (n, leg) := (|c.legs|, c.legs[i]);
    assert leg in c.legs;
    forall j | 0 <= j < n
      ensures Apart(leg, c.legs[j], i == j) && Apart(c.legs[j], leg, j == i)
    {
    }
    var lifted := FemurLift(c, layDown, base, n);
    FemurLiftCovers(c, layDown, base, n);
    FemurLiftAt(c, layDown, base, n, leg.coxaId);
    FootPlantAt(c, layDown, base, lifted, n, leg.coxaId);
    BodyRaiseHoldsCoxa(c, layDown, base, target, n, i);
    BodyRaiseAt(c, layDown, base, target, n, leg.femurId);
    BodyRaiseAt(c, layDown, base, target, n, leg.tibiaId);
  }

  // ---------------------------------------------------------------- the path in one line

  /** The part of a phase's way from `from` to `to` made by time `e`. */
  function Way(from: u16, to: u16, s: real, len: real, e: real): real
    requires len > 0.0
  {
    (to - from) as real * Ramp(s, len, e)
  }

  /** The exact position at time `e`, all four phases at once: phases not yet begun add
      nothing, phases completed add their whole way. */
  function Position(p: Path, d: real, e: real): real {
    var (f, t, b) := (FemurPhase(d), TibiaPhase(d), BodyPhase(d));
    p.a0 as real + Way(p.a0, p.a1, 0.0, f, e) + Way(p.a1, p.a2, f, t, e)
    + Way(p.a2, p.a3, f + t, b, e) + Way(p.a3, p.a4, f + t + b, CoxaPhase(d), e)
  }

  lemma WayEnds(from: u16, to: u16, s: real, len: real, e: real)
    requires len > 0.0
    ensures e <= s ==> Way(from, to, s, len, e) == 0.0
    ensures e >= s + len ==> Way(from, to, s, len, e) == (to - from) as real
  {
    RampEnds(s, len, e);
  }

  lemma RampForm(s: real, len: real, e: real)
    requires len > 0.0
    ensures Smoothstep(Clamp01((e - s) / len)) == Ramp(s, len, e) == Clamp01(Ramp(s, len, e))
  {
    SmoothstepRange((e - s) / len);
  }

  lemma LerpIsWay(from: u16, to: u16, s: real, len: real, e: real)
    requires len > 0.0
    ensures Lerp(from as real, to as real, Ramp(s, len, e)) == from as real + Way(from, to, s, len, e)
  {
    hide Ramp;
    assert to as real - from as real == (to - from) as real;
  }

  /** Within its phase, interpolating between the phase's poses gives the position. */
  lemma PhaseCommand(start: Pose, end: Pose, id: u8, s: real, len: real, e: real, spent: real)
    requires id in start && id in end && len > 0.0 && spent == e - s
    ensures id in Eased(start, end, spent, len)
    ensures Eased(start, end, spent, len)[id] == TickOf(start[id] as real + Way(start[id], end[id], s, len, e))
  {
    RampForm(s, len, e);
    LerpIsWay(start[id], end[id], s, len, e);
    hide TickOf, Smoothstep, Clamp01, Ramp, Lerp, Way;
  }

  lemma Finished(elapsed: real, d: real)
    requires d > 0.0
    ensures Clamp01(elapsed / d) >= 1.0 <==> elapsed >= d
  {
    if elapsed >= d {
      QuotientOrder(d, elapsed, d);
    } else {
      Quotient(elapsed, d);
      assert Product(d, elapsed / d - 1.0) < 0.0;
      hide Product;
      ProductSign(d, elapsed / d - 1.0);
    }
  }

  lemma PhasePoseIsPosition(base: Pose, lifted: Pose, planted: Pose, raised: Pose, target: Pose,
                            id: u8, d: real, e: real)
    requires id in base && id in lifted && id in planted && id in raised && id in target
    ensures var pose := PhasePose(base, lifted, planted, raised, target, d, e);
            id in pose
            && pose[id] == TickOf(Position(Path(base[id], lifted[id], planted[id], raised[id], target[id]), d, e))
  {
    hide TickOf, Position, Eased, Way, FemurPhase, TibiaPhase, BodyPhase, CoxaPhase;
    var p := Path(base[id], lifted[id], planted[id], raised[id], target[id]);
    var (f, t, b, x) := (FemurPhase(d), TibiaPhase(d), BodyPhase(d), CoxaPhase(d));
    PositionInPhase(p, d, e);
    if e < f {
      PhaseCommand(base, lifted, id, 0.0, f, e, e);
    } else if e < f + t {
      PhaseCommand(lifted, planted, id, f, t, e, e - f);
    } else if e < f + t + b {
      PhaseCommand(planted, raised, id, f + t, b, e, e - f - t);
    } else {
      PhaseCommand(raised, target, id, f + t + b, x, e, e - f - t - b);
    }
  }

  lemma PositionInPhase(p: Path, d: real, e: real)
    ensures var (f, t, b, x) := (FemurPhase(d), TibiaPhase(d), BodyPhase(d), CoxaPhase(d));
            Position(p, d, e) ==
            if e < f then p.a0 as real + Way(p.a0, p.a1, 0.0, f, e)
            else if e < f + t then p.a1 as real + Way(p.a1, p.a2, f, t, e)
            else if e < f + t + b then p.a2 as real + Way(p.a2, p.a3, f + t, b, e)
            else p.a3 as real + Way(p.a3, p.a4, f + t + b, x, e)
  {
    var (f, t, b, x) := (FemurPhase(d), TibiaPhase(d), BodyPhase(d), CoxaPhase(d));
    hide Way, FemurPhase, TibiaPhase, BodyPhase, CoxaPhase;
    WayEnds(p.a0, p.a1, 0.0, f, e);
    WayEnds(p.a1, p.a2, f, t, e);
    WayEnds(p.a2, p.a3, f + t, b, e);
    WayEnds(p.a3, p.a4, f + t + b, x, e);
  }

  /** Until the duration is up, the command is the position. */
  lemma CommandIsPosition(c: Config, layDown: Pose, base: Pose, target: Pose, id: u8, e: real)
    requires Covers(c, base) && Covers(c, target) && id in ServoIds(c) && e < Duration(c)
    ensures var pose := StagedStandUp(c, layDown, base, target, e);
            id in pose && pose[id] == TickOf(Position(PathOf(c, layDown, base, target, id), Duration(c), e))
  {
    var (n, lifted) := (|c.legs|, FemurLift(c, layDown, base, |c.legs|));
    FemurLiftCovers(c, layDown, base, n);
    FootPlantCovers(c, layDown, base, lifted, n);
    BodyRaiseCovers(c, layDown, base, target, n);
    Finished(e, Duration(c));
    hide TickOf, Position, PhasePose, Clamp01;
    PhasePoseIsPosition(base, lifted, FootPlant(c, layDown, base, lifted, n),
                        BodyRaise(c, layDown, base, target, n), target, id, Duration(c), e);
  }

  lemma PhasesFill(d: real)
    requires d >= 0.5
    ensures FemurPhase(d) == TibiaPhase(d) == 0.2 * d && BodyPhase(d) == 0.45 * d
    ensures d >= 2.0 / 3.0 ==> CoxaPhase(d) == 0.15 * d
    ensures d < 2.0 / 3.0 ==> CoxaPhase(d) == 0.1 > 0.15 * d
  {
  }

  lemma PositionEnds(p: Path, d: real, e: real)
    requires d >= 0.5
    ensures e <= 0.0 ==> Position(p, d, e) == p.a0 as real
    ensures d >= 2.0 / 3.0 && e >= d ==> Position(p, d, e) == p.a4 as real
  {
    PhasesFill(d);
    var (f, t, b, x) := (FemurPhase(d), TibiaPhase(d), BodyPhase(d), CoxaPhase(d));
    hide Way, FemurPhase, TibiaPhase, BodyPhase, CoxaPhase;
    WayEnds(p.a0, p.a1, 0.0, f, e);
    WayEnds(p.a1, p.a2, f, t, e);
    WayEnds(p.a2, p.a3, f + t, b, e);
    WayEnds(p.a3, p.a4, f + t + b, x, e);
  }

  lemma WholeTick(n: u16)
    requires n <= MAX_TICK
    ensures TickOf(n as real) == n
  {
    RoundUnique(n as real, n);
  }

  /** With at least two thirds of a second the command is the position at all times: the
      trajectory starts at the base pose and ends at the target. */
  lemma FollowsPosition(c: Config, layDown: Pose, base: Pose, target: Pose, id: u8, e: real)
    requires Covers(c, base) && Covers(c, target) && id in ServoIds(c) && Duration(c) >= 2.0 / 3.0
    ensures var pose := StagedStandUp(c, layDown, base, target, e);
            && id in pose
            && pose[id] == TickOf(Position(PathOf(c, layDown, base, target, id), Duration(c), e))
            && (e <= 0.0 ==> pose[id] == base[id])
            && (e >= Duration(c) ==> pose[id] == target[id])
  {
    var d := Duration(c);
    var p := PathOf(c, layDown, base, target, id);
    PositionEnds(p, d, e);
    WholeTick(p.a0);
    WholeTick(p.a4);
    hide Position, TickOf;
    if e < d {
      CommandIsPosition(c, layDown, base, target, id, e);
    } else {
      Finished(e, d);
    }
  }

  // ------------------------------------------------------------------------- rate bound

  function Rate(from: u16, to: u16, len: real): real
    requires len > 0.0
  {
    Distance(from as real, to as real) / len
  }

  /** The largest of the four phases' ranges over their lengths. */
  function LargestRate(p: Path, d: real): real {
    Max(Max(Rate(p.a0, p.a1, FemurPhase(d)), Rate(p.a1, p.a2, TibiaPhase(d))),
        Max(Rate(p.a2, p.a3, BodyPhase(d)), Rate(p.a3, p.a4, CoxaPhase(d))))
  }

  lemma WayDifference(from: u16, to: u16, s: real, len: real, e1: real, e2: real)
    requires len > 0.0 && e1 <= e2
    ensures Distance(Way(from, to, s, len, e1), Way(from, to, s, len, e2))
         == Product(Distance(from as real, to as real), Ramp(s, len, e2) - Ramp(s, len, e1))
  {
    hide Ramp, Spent, Product;
    RampSpent(s, len, e1, e2);
    DifferenceOfProducts(from as real, to as real, Ramp(s, len, e1), Ramp(s, len, e2));
  }

  lemma DifferenceOfProducts(a: real, b: real, r1: real, r2: real)
    requires r1 <= r2
    ensures Distance((b - a) * r1, (b - a) * r2) == Product(Distance(a, b), r2 - r1)
  {
    assert (b - a) * r1 - (b - a) * r2 == (a - b) * (r2 - r1);
    SignedProduct(a - b, r2 - r1);
    hide Product;
  }

  lemma RateTimes(from: u16, to: u16, len: real)
    requires len > 0.0
    ensures Product(len, Rate(from, to, len)) == Distance(from as real, to as real)
    ensures Rate(from, to, len) >= 0.0
  {
    var range := Distance(from as real, to as real);
    Quotient(range, len);
    QuotientOrder(0.0, range, len);
  }

  lemma RampSpent(s: real, len: real, e1: real, e2: real)
    requires len > 0.0 && e1 <= e2
    ensures Ramp(s, len, e2) - Ramp(s, len, e1) >= 0.0
    ensures Product(len, Ramp(s, len, e2) - Ramp(s, len, e1)) <= 1.5 * (Spent(s, len, e2) - Spent(s, len, e1))
  {
    RampSpread(s, len, e1, e2);
    hide Ramp, Spent;
  }

  lemma PhaseSpread(from: u16, to: u16, s: real, len: real, rate: real, e1: real, e2: real)
    requires len > 0.0 && e1 <= e2 && rate >= Rate(from, to, len)
    ensures Distance(Way(from, to, s, len, e1), Way(from, to, s, len, e2))
         <= 1.5 * Product(rate, Spent(s, len, e2) - Spent(s, len, e1))
  {
    hide Ramp, Spent, Distance, Way, Product, Rate;
    RampSpent(s, len, e1, e2);
    WayDifference(from, to, s, len, e1, e2);
    RateTimes(from, to, len);
    SlowerThanRate(len, Rate(from, to, len), rate, Ramp(s, len, e2) - Ramp(s, len, e1),
                   Spent(s, len, e2) - Spent(s, len, e1));
  }

  lemma SignedProduct(a: real, b: real)
    requires b >= 0.0
    ensures Abs(a * b) == Product(Abs(a), b)
  {
    ProductSign(a, b);
    ProductSign(-a, b);
    assert Product(-a, b) == -Product(a, b);
  }

  lemma SlowerThanRate(len: real, q: real, rate: real, rise: real, spent: real)
    requires len > 0.0 && rate >= q >= 0.0 && rise >= 0.0
    requires Product(len, rise) <= 1.5 * spent
    ensures Product(Product(len, q), rise) <= 1.5 * Product(rate, spent)
  {
    ProductRegroups(len, q, rise, spent);
    hide Product;
    ProductSign(len, rise);
    ProductGrows(q, Product(len, rise), 1.5 * spent);
    ProductGrows(spent, q, rate);
    ProductCommutes(spent, q);
    ProductCommutes(spent, rate);
  }

  lemma ProductRegroups(len: real, q: real, rise: real, spent: real)
    ensures Product(Product(len, q), rise) == Product(q, Product(len, rise))
    ensures Product(q, 1.5 * spent) == 1.5 * Product(q, spent)
  {
  }

  lemma ProductCommutes(a: real, b: real)
    ensures Product(a, b) == Product(b, a)
  {
  }

  /** Times spent in consecutive phases add up to no more than the time passed. */
  lemma SpentAddsUp(f: real, t: real, b: real, x: real, e1: real, e2: real)
    requires f > 0.0 && t > 0.0 && b > 0.0 && x > 0.0 && e1 <= e2
    ensures (Spent(0.0, f, e2) - Spent(0.0, f, e1)) + (Spent(f, t, e2) - Spent(f, t, e1))
            + (Spent(f + t, b, e2) - Spent(f + t, b, e1))
            + (Spent(f + t + b, x, e2) - Spent(f + t + b, x, e1)) <= e2 - e1
  {
    SpentTotal(f, t, b, x, e1);
    SpentTotal(f, t, b, x, e2);
  }

  lemma SpentTotal(f: real, t: real, b: real, x: real, e: real)
    requires f > 0.0 && t > 0.0 && b > 0.0 && x > 0.0
    ensures Spent(0.0, f, e) + Spent(f, t, e) + Spent(f + t, b, e) + Spent(f + t + b, x, e)
         == Clamp(e, 0.0, f + t + b + x)
  {
  }

  lemma RateNonNegative(p: Path, d: real)
    ensures LargestRate(p, d) >= 0.0
  {
    RateTimes(p.a0, p.a1, FemurPhase(d));
    hide Rate;
  }

  lemma PositionSpread(p: Path, d: real, e1: real, e2: real)
    requires e1 <= e2
    ensures Distance(Position(p, d, e1), Position(p, d, e2)) <= 1.5 * Product(LargestRate(p, d), e2 - e1)
  {
    var rate := LargestRate(p, d);
    var (f, t, b, x) := (FemurPhase(d), TibiaPhase(d), BodyPhase(d), CoxaPhase(d));
    hide Way, Spent, Rate, FemurPhase, TibiaPhase, BodyPhase, CoxaPhase;
    PhaseSpread(p.a0, p.a1, 0.0, f, rate, e1, e2);
    PhaseSpread(p.a1, p.a2, f, t, rate, e1, e2);
    PhaseSpread(p.a2, p.a3, f + t, b, rate, e1, e2);
    PhaseSpread(p.a3, p.a4, f + t + b, x, rate, e1, e2);
    SpentAddsUp(f, t, b, x, e1, e2);
    RateNonNegative(p, d);
    Spread4(rate, e2 - e1,
            Spent(0.0, f, e2) - Spent(0.0, f, e1), Spent(f, t, e2) - Spent(f, t, e1),
            Spent(f + t, b, e2) - Spent(f + t, b, e1),
            Spent(f + t + b, x, e2) - Spent(f + t + b, x, e1));
  }

  lemma Spread4(rate: real, total: real, s1: real, s2: real, s3: real, s4: real)
    requires rate >= 0.0 && s1 + s2 + s3 + s4 <= total
    ensures Product(rate, s1) + Product(rate, s2) + Product(rate, s3) + Product(rate, s4)
         <= Product(rate, total)
  {
    assert Product(rate, total - s1 - s2 - s3 - s4)
        == Product(rate, total) - Product(rate, s1) - Product(rate, s2) - Product(rate, s3) - Product(rate, s4);
    ProductSign(rate, total - s1 - s2 - s3 - s4);
  }

  // ------------------------------------------------------------------ one-phase poses

  /** `lay_down_pose` and `sit_down_pose` (with floor 0.5) and `stand_settle_pose` (0.25). */
  function SettlePose(base: Pose, target: Pose, seconds: real, floor: real, elapsed: real): Pose
    requires floor > 0.0
  {
    Eased(base, target, elapsed, Max(seconds, floor))
  }

  /** Settling starts at the base pose, ends at the target, and in between moves no servo
      faster than one and a half times its range over the duration, plus one tick. */
  lemma SettleRateBound(base: Pose, target: Pose, seconds: real, floor: real, id: u8, e1: real, e2: real)
    requires floor > 0.0 && e1 <= e2
    requires id in base && id in target && base[id] <= MAX_TICK && target[id] <= MAX_TICK
    ensures var (x, y) := (SettlePose(base, target, seconds, floor, e1), SettlePose(base, target, seconds, floor, e2));
            && id in x && id in y
            && (e1 <= 0.0 ==> x[id] == base[id])
            && (e2 >= Max(seconds, floor) ==> y[id] == target[id])
            && Distance(x[id] as real, y[id] as real)
               <= 1.5 * Product(Rate(base[id], target[id], Max(seconds, floor)), e2 - e1) + 1.0
  {
    hide TickOf, Eased, Way, Rate, Spent, Product, Max, Distance;
    var (len, a, b) := (Max(seconds, floor), base[id], target[id]);
    MaxPositive(seconds, floor);
    PhaseCommand(base, target, id, 0.0, len, e1, e1);
    PhaseCommand(base, target, id, 0.0, len, e2, e2);
    WholeTick(a);
    WholeTick(b);
    WayEnds(a, b, 0.0, len, e1);
    WayEnds(a, b, 0.0, len, e2);
    WayCommandSpread(a, b, len, e1, e2);
  }

  lemma MaxPositive(x: real, y: real)
    requires y > 0.0
    ensures Max(x, y) > 0.0
  {
  }

  lemma WayCommandSpread(a: u16, b: u16, len: real, e1: real, e2: real)
    requires len > 0.0 && e1 <= e2
    ensures var (x, y) := (a as real + Way(a, b, 0.0, len, e1), a as real + Way(a, b, 0.0, len, e2));
            Distance(TickOf(x) as real, TickOf(y) as real) <= 1.5 * Product(Rate(a, b, len), e2 - e1) + 1.0
  {
    hide TickOf, Way, Rate, Spent, Product;
    var (l1, l2) := (Way(a, b, 0.0, len, e1), Way(a, b, 0.0, len, e2));
    PhaseSpread(a, b, 0.0, len, Rate(a, b, len), e1, e2);
    SpentWithin(0.0, len, e1, e2);
    RateTimes(a, b, len);
    ProductGrows(Rate(a, b, len), Spent(0.0, len, e2) - Spent(0.0, len, e1), e2 - e1);
    TickOfSpread(a as real + l1, a as real + l2);
  }

  lemma SpentWithin(s: real, len: real, e1: real, e2: real)
    requires len > 0.0 && e1 <= e2
    ensures Spent(s, len, e2) - Spent(s, len, e1) <= e2 - e1
  {
  }

  // --------------------------------------------------------------------- short durations

  /** What the last phase of a short stand-up leaves undone, however late it is looked at. */
  function Shortfall(p: Path, d: real): real {
    Product(Distance(p.a3 as real, p.a4 as real), 1.0 - Smoothstep(1.5 * d))
  }

  lemma LastPhasePosition(p: Path, d: real, e: real)
    requires d >= 0.5 && 0.85 * d <= e
    ensures Position(p, d, e) == p.a3 as real + Way(p.a3, p.a4, 0.85 * d, CoxaPhase(d), e)
  {
    PhasesFill(d);
    var (f, t, b) := (FemurPhase(d), TibiaPhase(d), BodyPhase(d));
    assert f + t + b == 0.85 * d;
    hide Way, FemurPhase, TibiaPhase, BodyPhase, CoxaPhase;
    WayEnds(p.a0, p.a1, 0.0, f, e);
    WayEnds(p.a1, p.a2, f, t, e);
    WayEnds(p.a2, p.a3, f + t, b, e);
  }

  lemma RampIsShort(d: real, e: real)
    requires 0.5 <= d < 2.0 / 3.0 && 0.85 * d <= e <= d
    ensures Ramp(0.85 * d, 0.1, e) <= Smoothstep(1.5 * d) < 1.0
    ensures e < d ==> Ramp(0.85 * d, 0.1, e) < Smoothstep(1.5 * d)
    ensures e == d ==> Ramp(0.85 * d, 0.1, e) == Smoothstep(1.5 * d)
  {
    var q := (e - 0.85 * d) / 0.1;
    assert q <= 1.5 * d && (e < d ==> q < 1.5 * d) && (e == d ==> q == 1.5 * d);
    if e < d {
      SmoothstepRises(q, 1.5 * d);
    }
    SmoothstepShort(1.5 * d);
  }

  /** Below two thirds of a second the phases overrun: up to the very end the position stays
      the shortfall away from the target, which is then commanded at once. */
  lemma LastStepJumps(p: Path, d: real, e: real)
    requires 0.5 <= d < 2.0 / 3.0 && 0.85 * d <= e <= d
    ensures Distance(Position(p, d, e), p.a4 as real) >= Shortfall(p, d)
    ensures Shortfall(p, d) > 0.0 <==> p.a3 != p.a4
    ensures e < d && p.a3 != p.a4 ==> Distance(Position(p, d, e), p.a4 as real) > Shortfall(p, d)
  {
    PhasesFill(d);
    LastPhasePosition(p, d, e);
    RampIsShort(d, e);
    WayLeft(p.a3, p.a4, 0.85 * d, 0.1, e);
    var (range, left, end) := (Distance(p.a3 as real, p.a4 as real), 1.0 - Ramp(0.85 * d, 0.1, e),
                               1.0 - Smoothstep(1.5 * d));
    assert Product(range, left - end) == Product(range, left) - Product(range, end);
    hide Position, Ramp, Smoothstep, Product, Way;
    ProductSign(range, left - end);
    ProductSign(range, end);
  }

  lemma WayLeft(from: u16, to: u16, s: real, len: real, e: real)
    requires len > 0.0
    ensures Distance(from as real + Way(from, to, s, len, e), to as real)
         == Product(Distance(from as real, to as real), 1.0 - Ramp(s, len, e))
  {
    RampEnds(s, len, e);
    hide Ramp;
    var left := 1.0 - Ramp(s, len, e);
    assert from as real + Way(from, to, s, len, e) - to as real == (from - to) as real * left;
    SignedProduct((from - to) as real, left);
  }

  /** A rate at which the position comes in on the target. */
  ghost predicate ComesIn(p: Path, d: real, rate: real) {
    forall e :: 0.0 <= e < d ==> Distance(Position(p, d, e), p.a4 as real) <= Product(rate, d - e)
  }

  /** The position comes in on the target without a jump exactly when the duration is at
      least two thirds of a second or the last phase has no way to go. */
  lemma ComesInIff(p: Path, d: real)
    requires d >= 0.5
    ensures (exists rate :: ComesIn(p, d, rate)) <==> d >= 2.0 / 3.0 || p.a3 == p.a4
  {
    if d >= 2.0 / 3.0 || p.a3 == p.a4 {
      ArrivesAtRate(p, d);
    }
    forall rate | ComesIn(p, d, rate)
      ensures d >= 2.0 / 3.0 || p.a3 == p.a4
    {
      if d < 2.0 / 3.0 && p.a3 != p.a4 {
        JumpOutrunsRate(p, d, rate);
      }
    }
  }

  /** No rate bounds a jump: late enough, less than the shortfall is allowed. */
  lemma JumpOutrunsRate(p: Path, d: real, rate: real)
    requires 0.5 <= d < 2.0 / 3.0 && p.a3 != p.a4
    ensures !ComesIn(p, d, rate)
  {
    LastStepJumps(p, d, d);
    var m := SmallTime(Shortfall(p, d), rate, 0.05);
    var e := d - m;
    LastStepJumps(p, d, e);
    assert d - e == m;
  }

  lemma ArrivesAtRate(p: Path, d: real)
    requires d >= 0.5 && (d >= 2.0 / 3.0 || p.a3 == p.a4)
    ensures ComesIn(p, d, 1.5 * LargestRate(p, d))
  {
    hide Position, LargestRate, Product, Distance;
    var rate := LargestRate(p, d);
    ArrivalPosition(p, d);
    forall e | 0.0 <= e < d
      ensures Distance(Position(p, d, e), p.a4 as real) <= Product(1.5 * rate, d - e)
    {
      PositionSpread(p, d, e, d);
      ProductScales(rate, d - e);
    }
  }

  lemma ArrivalPosition(p: Path, d: real)
    requires d >= 0.5 && (d >= 2.0 / 3.0 || p.a3 == p.a4)
    ensures Position(p, d, d) == p.a4 as real
  {
    PhasesFill(d);
    LastPhasePosition(p, d, d);
    WayEnds(p.a3, p.a4, 0.85 * d, CoxaPhase(d), d);
  }

  // --------------------------------------------------------------- what the commands do

  /** When the duration is up the position is the shortfall away from the target: nothing from
      two thirds of a second on. */
  lemma PositionAtEnd(p: Path, d: real)
    requires d >= 0.5
    ensures Distance(Position(p, d, d), p.a4 as real) == Shortfall(p, d) >= 0.0
    ensures d >= 2.0 / 3.0 ==> Shortfall(p, d) == 0.0
  {
    PhasesFill(d);
    LastPhasePosition(p, d, d);
    WayLeft(p.a3, p.a4, 0.85 * d, CoxaPhase(d), d);
    RampEnds(0.85 * d, CoxaPhase(d), d);
    if d < 2.0 / 3.0 {
      RampIsShort(d, d);
    }
    SmoothstepRange(1.5 * d);
    hide Position, Ramp, Smoothstep, Product, CoxaPhase;
    ProductSign(Distance(p.a3 as real, p.a4 as real), 1.0 - Smoothstep(1.5 * d));
  }

  function TicksBetween(m: u16, n: u16): nat { if m < n then n - m else m - n }

  /** How many ticks the command for a servo at time `e` is from its target. */
  ghost function Miss(c: Config, layDown: Pose, base: Pose, target: Pose, id: u8, e: real): nat
    requires Covers(c, base) && Covers(c, target) && id in ServoIds(c)
  {
    var pose := StagedStandUp(c, layDown, base, target, e);
    if id in pose then TicksBetween(pose[id], target[id]) else 0
  }

  /** Rounding a position for a target within the servo's range errs by half a tick at most. */
  lemma MissOf(x: real, target: u16)
    requires target <= MAX_TICK
    ensures var (miss, gap) := (TicksBetween(TickOf(x), target), Distance(x, target as real));
            && miss as real <= gap + 0.5
            && (gap < 0.5 ==> miss == 0)
            && (0.0 <= x <= 4095.0 ==> miss as real >= gap - 0.5)
            && (0.0 <= x <= 4095.0 && gap > 0.5 ==> miss >= 1)
            && (0.0 <= x <= 4095.0 && gap > 1.5 ==> miss >= 2)
  {
    RoundNearest(x);
    hide Round;
    if Distance(x, target as real) < 0.5 {
      RoundUnique(x, target);
    }
    if 0.0 <= x <= 4095.0 {
      RoundWithin(x);
    }
  }

  lemma RoundWithin(x: real)
    requires 0.0 <= x <= 4095.0
    ensures 0 <= Round(x) <= 4095
  {
  }

  lemma BetweenStops(p: Path, d: real, e: real)
    requires d >= 0.5 && 0.85 * d <= e && p.a3 <= MAX_TICK && p.a4 <= MAX_TICK
    ensures 0.0 <= Position(p, d, e) <= 4095.0
  {
    LastPhasePosition(p, d, e);
    hide Position, Way;
    LerpIsWay(p.a3, p.a4, 0.85 * d, CoxaPhase(d), e);
    RampEnds(0.85 * d, CoxaPhase(d), e);
    hide Ramp, CoxaPhase;
    LerpBetween(p.a3 as real, p.a4 as real, Ramp(0.85 * d, CoxaPhase(d), e));
  }

  lemma LerpBetween(a: real, b: real, t: real)
    requires 0.0 <= a <= 4095.0 && 0.0 <= b <= 4095.0 && 0.0 <= t <= 1.0
    ensures 0.0 <= Lerp(a, b, t) <= 4095.0
  {
    assert Lerp(a, b, t) == Product(a, 1.0 - t) + Product(b, t);
    assert 4095.0 - Lerp(a, b, t) == Product(4095.0 - a, 1.0 - t) + Product(4095.0 - b, t);
    hide Product, Lerp;
    ProductSign(a, 1.0 - t);
    ProductSign(b, t);
    ProductSign(4095.0 - a, 1.0 - t);
    ProductSign(4095.0 - b, t);
  }

  lemma PathWithinRange(c: Config, layDown: Pose, base: Pose, target: Pose, id: u8)
    requires Covers(c, base) && Covers(c, target) && id in ServoIds(c)
    ensures var p := PathOf(c, layDown, base, target, id);
            p.a3 <= MAX_TICK && p.a4 == target[id] <= MAX_TICK
  {
    var raised := BodyRaise(c, layDown, base, target, |c.legs|);
    BodyRaiseCovers(c, layDown, base, target, |c.legs|);
    assert id in raised && id in target;
  }

  /** Below two thirds of a second every command of the last phase, however late, misses the
      target by the shortfall less the half tick that rounding may hide; when the duration is
      up the target itself is commanded. */
  lemma LastCommandJumps(c: Config, layDown: Pose, base: Pose, target: Pose, id: u8, e: real)
    requires Covers(c, base) && Covers(c, target) && id in ServoIds(c)
    requires 0.5 <= Duration(c) < 2.0 / 3.0 && 0.85 * Duration(c) <= e
    ensures var (p, d) := (PathOf(c, layDown, base, target, id), Duration(c));
            var miss := Miss(c, layDown, base, target, id, e);
            && id in StagedStandUp(c, layDown, base, target, e)
            && (e < d ==> miss as real >= Shortfall(p, d) - 0.5)
            && (e < d && Shortfall(p, d) >= 0.5 ==> miss >= 1)
            && (e < d && Shortfall(p, d) >= 1.5 ==> miss >= 2)
            && (e >= d ==> miss == 0)
  {
    var (p, d) := (PathOf(c, layDown, base, target, id), Duration(c));
    PathWithinRange(c, layDown, base, target, id);
    Finished(e, d);
    hide Position, TickOf, PathOf, Shortfall, Clamp01, Duration, ServoIds, Covers, PhasePose;
    if e < d {
      CommandIsPosition(c, layDown, base, target, id, e);
      LastStepJumps(p, d, e);
      BetweenStops(p, d, e);
      MissOf(Position(p, d, e), p.a4);
    }
  }

  ghost predicate StandsFrom(c: Config, layDown: Pose, base: Pose, target: Pose, id: u8, e0: real)
    requires Covers(c, base) && Covers(c, target) && id in ServoIds(c)
  {
    forall e :: e0 <= e < Duration(c) ==> Miss(c, layDown, base, target, id, e) == 0
  }

  /** From some time before the end on, the target is all that is commanded. */
  ghost predicate Lands(c: Config, layDown: Pose, base: Pose, target: Pose, id: u8)
    requires Covers(c, base) && Covers(c, target) && id in ServoIds(c)
  {
    exists e0 :: e0 < Duration(c) && StandsFrom(c, layDown, base, target, id, e0)
  }

  /** The exact condition: the commands reach the target before the duration is up exactly
      when the shortfall is less than the half tick that rounding hides. */
  lemma LandsIff(c: Config, layDown: Pose, base: Pose, target: Pose, id: u8)
    requires Covers(c, base) && Covers(c, target) && id in ServoIds(c)
    ensures Lands(c, layDown, base, target, id)
       <==> Shortfall(PathOf(c, layDown, base, target, id), Duration(c)) < 0.5
  {
    hide PathOf, Shortfall, LargestRate, Covers, ServoIds, Duration, StandsFrom, Product;
    if Shortfall(PathOf(c, layDown, base, target, id), Duration(c)) < 0.5 {
      SomeLanding(c, layDown, base, target, id);
    } else {
      forall e0 | e0 < Duration(c)
        ensures !StandsFrom(c, layDown, base, target, id, e0)
      {
        NeverStands(c, layDown, base, target, id, e0);
      }
    }
  }

  lemma SomeLanding(c: Config, layDown: Pose, base: Pose, target: Pose, id: u8)
    requires Covers(c, base) && Covers(c, target) && id in ServoIds(c)
    requires Shortfall(PathOf(c, layDown, base, target, id), Duration(c)) < 0.5
    ensures Lands(c, layDown, base, target, id)
  {
    hide PathOf, Shortfall, LargestRate, Covers, ServoIds, Duration, Miss, Product;
    var (p, d) := (PathOf(c, layDown, base, target, id), Duration(c));
    var m := SmallTime(0.5 - Shortfall(p, d), 1.5 * LargestRate(p, d), 0.05);
    forall e | d - m <= e < d
      ensures Miss(c, layDown, base, target, id, e) == 0
    {
      LandsLate(c, layDown, base, target, id, m, e);
    }
    assert StandsFrom(c, layDown, base, target, id, d - m);
  }

  lemma DurationAtLeast(c: Config)
    ensures Duration(c) >= 0.5
  {
  }

  lemma Later(x: real, d: real)
    requires x < d && d >= 0.5
    ensures x <= Max(x, 0.85 * d) < d && 0.85 * d <= Max(x, 0.85 * d)
  {
  }

  lemma NeverStands(c: Config, layDown: Pose, base: Pose, target: Pose, id: u8, e0: real)
    requires Covers(c, base) && Covers(c, target) && id in ServoIds(c) && e0 < Duration(c)
    requires Shortfall(PathOf(c, layDown, base, target, id), Duration(c)) >= 0.5
    ensures !StandsFrom(c, layDown, base, target, id, e0)
  {
    hide PathOf, Shortfall, Covers, ServoIds, Duration, Miss, StagedStandUp, Max;
    var (p, d) := (PathOf(c, layDown, base, target, id), Duration(c));
    DurationAtLeast(c);
    PositionAtEnd(p, d);
    Later(e0, d);
    var e := Max(e0, 0.85 * d);
    LastCommandJumps(c, layDown, base, target, id, e);
    assert Miss(c, layDown, base, target, id, e) != 0;
  }

  lemma LandsLate(c: Config, layDown: Pose, base: Pose, target: Pose, id: u8, m: real, e: real)
    requires Covers(c, base) && Covers(c, target) && id in ServoIds(c)
    requires Duration(c) - m <= e < Duration(c)
    requires var (p, d) := (PathOf(c, layDown, base, target, id), Duration(c));
             Product(1.5 * LargestRate(p, d), m) < 0.5 - Shortfall(p, d)
    ensures Miss(c, layDown, base, target, id, e) == 0
  {
    hide Position, TickOf, PathOf, Shortfall, LargestRate, StagedStandUp, Covers, ServoIds, Product, Distance,
      Duration, TicksBetween;
    var (p, d) := (PathOf(c, layDown, base, target, id), Duration(c));
    DurationAtLeast(c);
    PathWithinRange(c, layDown, base, target, id);
    CommandIsPosition(c, layDown, base, target, id, e);
    GapShrinks(p, d, e);
    RateNonNegative(p, d);
    ProductGrows(1.5 * LargestRate(p, d), d - e, m);
    MissOf(Position(p, d, e), p.a4);
  }

  lemma GapShrinks(p: Path, d: real, e: real)
    requires d >= 0.5 && e <= d
    ensures Distance(Position(p, d, e), p.a4 as real)
         <= Shortfall(p, d) + Product(1.5 * LargestRate(p, d), d - e)
  {
    hide Position, Shortfall, LargestRate, Product;
    ProductScales(LargestRate(p, d), d - e);
    PositionAtEnd(p, d);
    PositionSpread(p, d, e, d);
  }

  /** The bound on how far the commands for a servo may be apart at two times: one and a half
      times the largest phase rate, and a tick of rounding. */
  ghost predicate Bounded(c: Config, layDown: Pose, base: Pose, target: Pose, id: u8, e1: real, e2: real)
    requires Covers(c, base) && Covers(c, target) && id in ServoIds(c)
  {
    var (x, y) := (StagedStandUp(c, layDown, base, target, e1), StagedStandUp(c, layDown, base, target, e2));
    var rate := LargestRate(PathOf(c, layDown, base, target, id), Duration(c));
    && id in x && id in y
    && TicksBetween(x[id], y[id]) as real <= 1.5 * Product(rate, e2 - e1) + 1.0
  }

  lemma TicksAreDistance(m: u16, n: u16)
    ensures TicksBetween(m, n) as real == Distance(m as real, n as real)
  {
  }

  lemma NoTicks(n: u16)
    ensures TicksBetween(n, n) == 0
  {
  }

  /** The bound is in question only across the end: it holds where the earlier command misses
      the target by no more than it allows until then. */
  lemma BoundFromMiss(c: Config, layDown: Pose, base: Pose, target: Pose, id: u8, e1: real, e2: real)
    requires Covers(c, base) && Covers(c, target) && id in ServoIds(c) && e1 <= e2
    requires var (p, d) := (PathOf(c, layDown, base, target, id), Duration(c));
             e1 < d ==>
               Miss(c, layDown, base, target, id, e1) as real <= 1.5 * Product(LargestRate(p, d), d - e1) + 1.0
    ensures Bounded(c, layDown, base, target, id, e1, e2)
  {
    hide Position, TickOf, LargestRate, StagedStandUp, PathOf, Duration, Product, TicksBetween, Distance;
    var (p, d) := (PathOf(c, layDown, base, target, id), Duration(c));
    assert id in target;
    hide Covers, ServoIds;
    RateNonNegative(p, d);
    if e2 < d {
      CommandIsPosition(c, layDown, base, target, id, e1);
      CommandIsPosition(c, layDown, base, target, id, e2);
      PositionSpread(p, d, e1, e2);
      TickOfSpread(Position(p, d, e1), Position(p, d, e2));
      TicksAreDistance(TickOf(Position(p, d, e1)), TickOf(Position(p, d, e2)));
    } else {
      CommandAfterEnd(c, layDown, base, target, e2);
      if e1 < d {
        CommandIsPosition(c, layDown, base, target, id, e1);
        ProductGrows(LargestRate(p, d), d - e1, e2 - e1);
      } else {
        CommandAfterEnd(c, layDown, base, target, e1);
        ProductSign(LargestRate(p, d), e2 - e1);
        NoTicks(target[id]);
      }
    }
  }

  function Gap(p: Path, d: real, e: real): real { Distance(Position(p, d, e), p.a4 as real) }

  lemma MissFromGap(c: Config, layDown: Pose, base: Pose, target: Pose, id: u8, e: real)
    requires Covers(c, base) && Covers(c, target) && id in ServoIds(c) && e < Duration(c)
    ensures var gap := Gap(PathOf(c, layDown, base, target, id), Duration(c), e);
            var miss := Miss(c, layDown, base, target, id, e);
            miss as real <= gap + 0.5 && (gap < 1.5 ==> miss <= 1)
  {
    hide Position, TickOf, PathOf, StagedStandUp, Duration, TicksBetween, Distance;
    var p := PathOf(c, layDown, base, target, id);
    PathWithinRange(c, layDown, base, target, id);
    hide Covers, ServoIds;
    CommandIsPosition(c, layDown, base, target, id, e);
    MissOf(Position(p, Duration(c), e), p.a4);
  }

  /** When the duration is up the target is commanded, whatever the base pose. */
  lemma CommandAfterEnd(c: Config, layDown: Pose, base: Pose, target: Pose, e: real)
    requires e >= Duration(c)
    ensures StagedStandUp(c, layDown, base, target, e) == target
  {
    Finished(e, Duration(c));
  }

  /** At the start every servo is commanded where it is, for a stand-up of any duration. */
  lemma CommandAtStart(c: Config, layDown: Pose, base: Pose, target: Pose, id: u8)
    requires Covers(c, base) && Covers(c, target) && id in ServoIds(c)
    ensures var pose := StagedStandUp(c, layDown, base, target, 0.0);
            id in pose && id in base && pose[id] == base[id]
  {
    var (p, d) := (PathOf(c, layDown, base, target, id), Duration(c));
    assert id in base && p.a0 == base[id];
    PositionEnds(p, d, 0.0);
    WholeTick(p.a0);
    hide Position, TickOf, PathOf, StagedStandUp;
    CommandIsPosition(c, layDown, base, target, id, 0.0);
  }

  /** The commands keep the bound at any two times when the shortfall is at most half a tick,
      and so whenever the duration is at least two thirds of a second. */
  lemma CommandRateBound(c: Config, layDown: Pose, base: Pose, target: Pose, id: u8, e1: real, e2: real)
    requires Covers(c, base) && Covers(c, target) && id in ServoIds(c) && e1 <= e2
    requires Duration(c) >= 2.0 / 3.0 || Shortfall(PathOf(c, layDown, base, target, id), Duration(c)) <= 0.5
    ensures Bounded(c, layDown, base, target, id, e1, e2)
  {
    hide Position, LargestRate, PathOf, Shortfall, Duration, Product, Distance, Miss, Bounded, Covers, ServoIds;
    var (p, d) := (PathOf(c, layDown, base, target, id), Duration(c));
    DurationAtLeast(c);
    if e1 < d {
      PositionAtEnd(p, d);
      GapShrinks(p, d, e1);
      MissFromGap(c, layDown, base, target, id, e1);
      ProductScales(LargestRate(p, d), d - e1);
    }
    BoundFromMiss(c, layDown, base, target, id, e1, e2);
  }

  /** The moment from which on the bound allows less than two ticks until the end. */
  function LastMoment(p: Path, d: real): real
    requires LargestRate(p, d) != 0.0
  {
    d - 1.0 / (1.5 * LargestRate(p, d))
  }

  lemma MomentAllowsTwo(p: Path, d: real)
    requires LargestRate(p, d) > 0.0
    ensures LastMoment(p, d) < d && 1.5 * Product(LargestRate(p, d), d - LastMoment(p, d)) == 1.0
  {
    var rate := LargestRate(p, d);
    hide LargestRate;
    Quotient(1.0, 1.5 * rate);
    var q := 1.0 / (1.5 * rate);
    assert 1.5 * Product(rate, q) == 1.0;
    hide Product;
    ProductSign(rate, q);
    assert d - LastMoment(p, d) == q;
  }

  /** With a shortfall the moment lies in the last phase. */
  lemma MomentInLastPhase(p: Path, d: real)
    requires 0.5 <= d < 2.0 / 3.0 && p.a3 != p.a4
    ensures LargestRate(p, d) >= 10.0 && 0.85 * d <= LastMoment(p, d)
  {
    PhasesFill(d);
    hide FemurPhase, TibiaPhase, BodyPhase, CoxaPhase;
    assert Rate(p.a3, p.a4, 0.1) >= 10.0;
    hide Rate;
    var rate := LargestRate(p, d);
    assert rate >= 10.0;
    hide LargestRate;
    TenthAtMost(rate);
  }

  lemma TenthAtMost(rate: real)
    requires rate >= 10.0
    ensures 1.0 / (1.5 * rate) <= 1.0 / 15.0
  {
    var q := 1.0 / (1.5 * rate);
    Quotient(1.0, 1.5 * rate);
    assert Product(1.5 * rate, q) == 1.0 && Product(1.5 * rate - 15.0, q) == 1.0 - 15.0 * q;
    hide Product;
    ProductSign(1.5 * rate, q);
    ProductSign(1.5 * rate - 15.0, q);
  }

  /** In the last phase of a short stand-up the position comes nearer all the time. */
  lemma GapFalls(p: Path, d: real, e1: real, e2: real)
    requires 0.5 <= d < 2.0 / 3.0 && p.a3 != p.a4 && 0.85 * d <= e1 < e2 <= d
    ensures Gap(p, d, e2) < Gap(p, d, e1)
  {
    hide Position, Way, Ramp, Product, Distance;
    PhasesFill(d);
    LastPhasePosition(p, d, e1);
    LastPhasePosition(p, d, e2);
    WayLeft(p.a3, p.a4, 0.85 * d, 0.1, e1);
    WayLeft(p.a3, p.a4, 0.85 * d, 0.1, e2);
    RampRises(d, e1, e2);
    SomeWay(p.a3, p.a4);
    ProductRises(Distance(p.a3 as real, p.a4 as real), 1.0 - Ramp(0.85 * d, 0.1, e2), 1.0 - Ramp(0.85 * d, 0.1, e1));
  }

  lemma SomeWay(m: u16, n: u16)
    requires m != n
    ensures Distance(m as real, n as real) > 0.0
  {
  }

  lemma ProductRises(k: real, x: real, y: real)
    requires k > 0.0 && x < y
    ensures Product(k, x) < Product(k, y)
  {
    assert Product(k, y - x) == Product(k, y) - Product(k, x);
    hide Product;
    ProductSign(k, y - x);
  }

  lemma RampRises(d: real, e1: real, e2: real)
    requires 0.5 <= d < 2.0 / 3.0 && 0.85 * d <= e1 < e2 <= d
    ensures Ramp(0.85 * d, 0.1, e1) < Ramp(0.85 * d, 0.1, e2)
  {
    hide Smoothstep;
    SmoothstepRises((e1 - 0.85 * d) / 0.1, (e2 - 0.85 * d) / 0.1);
  }

  /** What the gap at the last moment says of the gap before and after it. */
  lemma GapAround(p: Path, d: real, e: real)
    requires d >= 0.5 && LargestRate(p, d) > 0.0 && e < d && Gap(p, d, LastMoment(p, d)) <= 1.5
    ensures e <= LastMoment(p, d) ==> Gap(p, d, e) <= 0.5 + 1.5 * Product(LargestRate(p, d), d - e)
    ensures e > LastMoment(p, d) ==> Gap(p, d, e) < 1.5
  {
    hide Position, LargestRate, Product, LastMoment, Shortfall;
    var (rate, m) := (LargestRate(p, d), LastMoment(p, d));
    MomentAllowsTwo(p, d);
    ProductDifference(rate, d - e, d - m);
    if e <= m {
      PositionSpread(p, d, e, m);
      assert d - e - (d - m) == m - e;
    } else if Shortfall(p, d) <= 0.5 {
      GapShrinks(p, d, e);
      ProductScales(rate, d - e);
      ProductRises(rate, d - e, d - m);
    } else {
      ShortOnly(p, d);
      MomentInLastPhase(p, d);
      GapFalls(p, d, m, e);
    }
  }

  lemma ProductDifference(k: real, x: real, y: real)
    ensures Product(k, x - y) == Product(k, x) - Product(k, y)
  {
  }

  lemma ShortOnly(p: Path, d: real)
    requires d >= 0.5 && Shortfall(p, d) > 0.0
    ensures d < 2.0 / 3.0 && p.a3 != p.a4
  {
    hide Position;
    PositionAtEnd(p, d);
    if d < 2.0 / 3.0 {
      LastStepJumps(p, d, d);
    }
  }

  /** The exact condition, for one servo: it never moves, or at the last moment its position is
      at most one and a half ticks from the target. */
  ghost predicate ArrivesGently(p: Path, d: real) {
    LargestRate(p, d) == 0.0 || Gap(p, d, LastMoment(p, d)) <= 1.5
  }

  lemma GentleMiss(c: Config, layDown: Pose, base: Pose, target: Pose, id: u8, e: real)
    requires Covers(c, base) && Covers(c, target) && id in ServoIds(c) && e < Duration(c)
    requires var (p, d) := (PathOf(c, layDown, base, target, id), Duration(c));
             LargestRate(p, d) > 0.0 && Gap(p, d, LastMoment(p, d)) <= 1.5
    ensures var (p, d) := (PathOf(c, layDown, base, target, id), Duration(c));
            Miss(c, layDown, base, target, id, e) as real <= 1.5 * Product(LargestRate(p, d), d - e) + 1.0
  {
    hide LargestRate, PathOf, Duration, Product, Miss, Covers, ServoIds, Gap, LastMoment;
    var (p, d) := (PathOf(c, layDown, base, target, id), Duration(c));
    DurationAtLeast(c);
    GapAround(p, d, e);
    MissFromGap(c, layDown, base, target, id, e);
    ProductSign(LargestRate(p, d), d - e);
  }

  lemma StillHasNoShortfall(p: Path, d: real)
    requires d >= 0.5 && LargestRate(p, d) == 0.0
    ensures Shortfall(p, d) == 0.0
  {
    hide Position, LargestRate, Product, Shortfall;
    PositionAtEnd(p, d);
    if Shortfall(p, d) > 0.0 {
      ShortOnly(p, d);
      MomentInLastPhase(p, d);
    }
  }

  /** Otherwise the commands break the bound, just after the last moment. */
  lemma RateBoundBreaks(c: Config, layDown: Pose, base: Pose, target: Pose, id: u8)
    requires Covers(c, base) && Covers(c, target) && id in ServoIds(c)
    requires !ArrivesGently(PathOf(c, layDown, base, target, id), Duration(c))
    ensures exists e :: 0.0 < e < Duration(c) && !Bounded(c, layDown, base, target, id, e, Duration(c))
  {
    hide Position, LargestRate, PathOf, Shortfall, StagedStandUp, Duration, Product, TicksBetween, TickOf, Distance,
      LastMoment;
    var (p, d) := (PathOf(c, layDown, base, target, id), Duration(c));
    assert id in target;
    hide Covers, ServoIds;
    DurationAtLeast(c);
    RateNonNegative(p, d);
    PathWithinRange(c, layDown, base, target, id);
    var m := JustAfter(p, d);
    var e := LastMoment(p, d) + m;
    BetweenStops(p, d, e);
    CommandIsPosition(c, layDown, base, target, id, e);
    MissOf(Position(p, d, e), p.a4);
    CommandAfterEnd(c, layDown, base, target, d);
    assert !Bounded(c, layDown, base, target, id, e, d);
  }

  lemma JustAfter(p: Path, d: real) returns (m: real)
    requires d >= 0.5 && LargestRate(p, d) > 0.0 && Gap(p, d, LastMoment(p, d)) > 1.5
    ensures 0.85 * d <= LastMoment(p, d) + m < d && Gap(p, d, LastMoment(p, d) + m) > 1.5
    ensures 1.5 * Product(LargestRate(p, d), d - (LastMoment(p, d) + m)) < 1.0
  {
    hide Position, LargestRate, Product, LastMoment, Shortfall;
    var (rate, moment) := (LargestRate(p, d), LastMoment(p, d));
    MomentAllowsTwo(p, d);
    GapShrinks(p, d, moment);
    ProductScales(rate, d - moment);
    ShortOnly(p, d);
    MomentInLastPhase(p, d);
    m := SmallTime(Gap(p, d, moment) - 1.5, 1.5 * rate, (d - moment) / 2.0);
    ProductScales(rate, m);
    PositionSpread(p, d, moment, moment + m);
    assert moment + m - moment == m;
    ProductRises(rate, d - (moment + m), d - moment);
  }

  ghost predicate AlwaysBounded(c: Config, layDown: Pose, base: Pose, target: Pose, id: u8)
    requires Covers(c, base) && Covers(c, target) && id in ServoIds(c)
  {
    forall e1, e2 :: e1 <= e2 ==> Bounded(c, layDown, base, target, id, e1, e2)
  }

  /** The commands for a servo keep the bound at all times exactly when it arrives gently. */
  lemma CommandRateBoundIff(c: Config, layDown: Pose, base: Pose, target: Pose, id: u8)
    requires Covers(c, base) && Covers(c, target) && id in ServoIds(c)
    ensures AlwaysBounded(c, layDown, base, target, id)
       <==> ArrivesGently(PathOf(c, layDown, base, target, id), Duration(c))
  {
    hide LargestRate, PathOf, Duration, Product, Miss, Covers, ServoIds, Gap, LastMoment, Bounded, Shortfall;
    var (p, d) := (PathOf(c, layDown, base, target, id), Duration(c));
    DurationAtLeast(c);
    RateNonNegative(p, d);
    if ArrivesGently(p, d) {
      forall e1, e2 | e1 <= e2
        ensures Bounded(c, layDown, base, target, id, e1, e2)
      {
        if LargestRate(p, d) == 0.0 {
          StillHasNoShortfall(p, d);
          CommandRateBound(c, layDown, base, target, id, e1, e2);
        } else {
          if e1 < d {
            GentleMiss(c, layDown, base, target, id, e1);
          }
          BoundFromMiss(c, layDown, base, target, id, e1, e2);
        }
      }
    } else {
      RateBoundBreaks(c, layDown, base, target, id);
    }
  }

  lemma ProductScales(a: real, b: real)
    ensures Product(1.5 * a, b) == 1.5 * Product(a, b)
  {
  }

  function ShortConfig(): Config {
    Config([Leg(1, 2, 3, 0, 2000, 2000, 1, 1)], 0.5, 20, 20)
  }

  function CoxaAt(ticks: u16): Pose { map[1 := ticks, 2 := 2000, 3 := 2000] }

  lemma ShortConfigFits(ticks: u16)
    requires ticks <= MAX_TICK
    ensures WellFormed(ShortConfig()) && Covers(ShortConfig(), CoxaAt(ticks))
    ensures 1 in ServoIds(ShortConfig()) && Duration(ShortConfig()) == 0.5
  {
    assert ShortConfig().legs[0].coxaId == 1;
    assert ServoIds(ShortConfig()) == {1, 2, 3};
  }

  lemma ShortConfigPath()
    requires Covers(ShortConfig(), CoxaAt(0)) && Covers(ShortConfig(), CoxaAt(1000)) && 1 in ServoIds(ShortConfig())
    requires WellFormed(ShortConfig())
    ensures PathOf(ShortConfig(), map[], CoxaAt(0), CoxaAt(1000), 1) == Path(0, 0, 0, 0, 1000)
  {
    hide WellFormed, Covers, ServoIds, FemurLift, FootPlant, BodyRaise;
    CoxaeMoveLast(ShortConfig(), map[], CoxaAt(0), CoxaAt(1000), 0);
  }

  /** One leg whose coxa has a thousand ticks to go in half a second: one thousandth of a
      second before the end its command is still 156 ticks or more away from the target, where
      the bound allows sixteen. */
  lemma ShortStandUpJumps()
    ensures var (c, base, target) := (ShortConfig(), CoxaAt(0), CoxaAt(1000));
            && WellFormed(c) && Covers(c, base) && Covers(c, target) && 1 in ServoIds(c)
            && Miss(c, map[], base, target, 1, 0.499) >= 156
            && LargestRate(PathOf(c, map[], base, target, 1), Duration(c)) == 10000.0
            && !Bounded(c, map[], base, target, 1, 0.499, 0.5)
  {
    var (c, base, target) := (ShortConfig(), CoxaAt(0), CoxaAt(1000));
    ShortConfigFits(0);
    ShortConfigFits(1000);
    hide WellFormed, Covers, ServoIds, PathOf, StagedStandUp, LargestRate, Shortfall, Duration, ShortConfig;
    ShortConfigPath();
    ShortPath();
    LastCommandJumps(c, map[], base, target, 1, 0.499);
    CommandAfterEnd(c, map[], base, target, 0.5);
    assert 1 in target;
  }

  lemma ShortPath()
    ensures Shortfall(Path(0, 0, 0, 0, 1000), 0.5) == 156.25
    ensures LargestRate(Path(0, 0, 0, 0, 1000), 0.5) == 10000.0
  {
    PhasesFill(0.5);
  }
}
