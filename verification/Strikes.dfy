/** The strike counters against the history of evaluations they summarise. */
module Strikes {
  import opened Results
  import opened Words
  import opened ServoPoll
  import opened Motion

  /** What happens to a motion runtime between two mode switches, as far as its counters are
      concerned: arming, disarming, and one safety evaluation. */
  datatype Op =
    | ArmOp(pose: Pose, now: real)
    | DisarmOp
    | CheckOp(imu: Option<ImuState>, states: ServoStates)

  datatype Setup = Setup(mode: BrainMode, safety: SafetyConfig, ids: seq<u8>)

  function Front<T>(s: seq<T>): seq<T>
    requires s != []
  {
    s[..|s| - 1]
  }

  function Last<T>(s: seq<T>): T
    requires s != []
  {
    s[|s| - 1]
  }

  // --------------------------------------------------------------- what history says

  /** The latest unbroken run of below-threshold evaluations of one servo; evaluations
      without telemetry for it are skipped. */
  function VoltageRun(c: Setup, ops: seq<Op>, id: u8): nat {
    if ops == [] then 0
    else
      var before := VoltageRun(c, Front(ops), id);
      match Last(ops)
      case CheckOp(_, states) =>
        (match TelemetryOf(states, id)
         case None => before
         case Some(t) => if LowVoltageSeen(c.safety, t) then before + 1 else 0)
      case _ => before
  }

  predicate IsArmed(ops: seq<Op>) {
    ops != [] && match Last(ops)
                 case ArmOp(_, _) => true
                 case DisarmOp => false
                 case CheckOp(_, _) => IsArmed(Front(ops))
  }

  /** Consecutive over-limit, near-gravity looks at the body since the last calm look, disarm
      or fresh arm; looks without an IMU state are skipped. */
  function BodyRun(c: Setup, ops: seq<Op>): nat {
    if ops == [] then 0
    else
      var before := BodyRun(c, Front(ops));
      match Last(ops)
      case DisarmOp => 0
      case ArmOp(_, _) => if IsArmed(Front(ops)) then before else 0
      case CheckOp(imu, _) =>
        if !c.mode.EnforcesBodyAttitudeLimits() then 0
        else match Attitude(c.safety, imu)
             case Skipped => before
             case Calm => 0
             case Strike(_) => before + 1
  }

  predicate Overheated(c: Setup, states: ServoStates) {
    exists id :: id in c.ids && TelemetryOf(states, id).Some?
                 && TooHot(c.safety, TelemetryOf(states, id).value)
  }

  // ------------------------------------------------------------- what counts, in numbers

  /** The acceleration is within 2.5 m/s2 of gravity, or not known. */
  predicate Upright(look: ImuState) {
    look.accelNormMps2.None? || 7.31 <= look.accelNormMps2.value <= 12.31
  }

  /** Tipped further than a limit, to either side. */
  predicate Beyond(angle: Option<real>, limit: real) {
    angle.Some? && (angle.value > limit || angle.value < -limit)
  }

  /** Which looks at the body strike, and for what reason: roll goes before pitch. */
  lemma LookStrikesIff(safety: SafetyConfig, look: ImuState)
    ensures var (roll, pitch) := (Beyond(look.rollDeg, safety.maxBodyRollDeg),
                                  Beyond(look.pitchDeg, safety.maxBodyPitchDeg));
            Attitude(safety, Some(look)) == if Upright(look) && roll then Strike(BodyRoll)
                                            else if Upright(look) && pitch then Strike(BodyPitch)
                                            else Calm
  {
  }

  function Negated(angle: Option<real>): Option<real> {
    if angle.Some? then Some(-angle.value) else None
  }

  /** Left is like right, and nose up like nose down. */
  lemma MirroredLook(safety: SafetyConfig, look: ImuState)
    ensures Attitude(safety, Some(ImuState(Negated(look.rollDeg), Negated(look.pitchDeg), look.accelNormMps2)))
         == Attitude(safety, Some(look))
  {
  }

  predicate Tipped(safety: SafetyConfig, look: Option<ImuState>) {
    && look.Some? && Upright(look.value)
    && (Beyond(look.value.rollDeg, safety.maxBodyRollDeg) || Beyond(look.value.pitchDeg, safety.maxBodyPitchDeg))
  }

  /** How one look moves the body's run: in telemetry and manual mode there is none. */
  lemma BodyRunMoves(c: Setup, ops: seq<Op>, imu: Option<ImuState>, states: ServoStates)
    ensures BodyRun(c, ops + [CheckOp(imu, states)])
         == if c.mode == Telemetry_ || c.mode == Manual then 0
            else if imu.None? then BodyRun(c, ops)
            else if Tipped(c.safety, imu) then BodyRun(c, ops) + 1
            else 0
  {
    assert Front(ops + [CheckOp(imu, states)]) == ops;
    if imu.Some? {
      LookStrikesIff(c.safety, imu.value);
    }
  }

  /** How one evaluation moves a servo's run: only a voltage below a positive limit counts. */
  lemma VoltageRunMoves(c: Setup, ops: seq<Op>, imu: Option<ImuState>, states: ServoStates, id: u8)
    ensures var (run, before, known) := (VoltageRun(c, ops + [CheckOp(imu, states)], id), VoltageRun(c, ops, id),
                                         TelemetryOf(states, id));
            && (known.None? ==> run == before)
            && (known.Some? ==>
                  run == if 0.0 < c.safety.minBusVoltageV && known.value.voltageV < c.safety.minBusVoltageV
                         then before + 1 else 0)
  {
    assert Front(ops + [CheckOp(imu, states)]) == ops;
  }

  /** A servo overheats exactly when its known temperature is above the limit. */
  lemma OverheatedIff(c: Setup, states: ServoStates)
    ensures Overheated(c, states)
       <==> exists id :: id in c.ids && id in states && states[id].Some? && states[id].value.temperatureC.Some?
                         && states[id].value.temperatureC.value > c.safety.maxServoTempC
  {
    forall id | id in c.ids
      ensures (TelemetryOf(states, id).Some? && TooHot(c.safety, TelemetryOf(states, id).value))
         <==> (id in states && states[id].Some? && states[id].value.temperatureC.Some?
               && states[id].value.temperatureC.value > c.safety.maxServoTempC)
    {
    }
  }

  /** Three tipped looks in a row, to whatever sides: if the first two have not tripped, the
      third does. */
  lemma ThreeTippedLooksTrip(c: Setup, ops: seq<Op>, a: Op, b: Op, last: Op)
    requires a.CheckOp? && b.CheckOp? && last.CheckOp? && Distinct(c.ids) && c.mode != Telemetry_ && c.mode != Manual
    requires Tipped(c.safety, a.imu) && Tipped(c.safety, b.imu) && Tipped(c.safety, last.imu)
    requires Untripped(c, ops + [a] + [b])
    ensures Apply(c, Replay(c, ops + [a] + [b]), last).1.Some?
  {
    hide Tipped, Untripped;
    BodyRunMoves(c, ops, a.imu, a.states);
    BodyRunMoves(c, ops + [a], b.imu, b.states);
    BodyRunMoves(c, ops + [a] + [b], last.imu, last.states);
    Given(c.safety, a.imu);
    Given(c.safety, b.imu);
    Given(c.safety, last.imu);
    hide BodyRun, Apply;
    TripsExactlyAtThreshold(c, ops + [a] + [b], last);
  }

  lemma Given(safety: SafetyConfig, look: Option<ImuState>)
    requires Tipped(safety, look)
    ensures look.Some?
  {
  }

  // ------------------------------------------------------------- what the runtime does

  function Apply(c: Setup, m: Motion, op: Op): (Motion, Option<FaultReason>) {
    match op
    case ArmOp(pose, now) => (Arm(m, pose, now), None)
    case DisarmOp => (Disarm(m), None)
    case CheckOp(imu, states) => CheckSafety(m, c.safety, c.ids, states, imu)
  }

  function Replay(c: Setup, ops: seq<Op>): Motion {
    if ops == [] then New(c.mode) else Apply(c, Replay(c, Front(ops)), Last(ops)).0
  }

  /** No evaluation so far asked for a fault. */
  predicate Untripped(c: Setup, ops: seq<Op>) {
    ops == [] || (Untripped(c, Front(ops)) && Apply(c, Replay(c, Front(ops)), Last(ops)).1.None?)
  }

  // --------------------------------------------------------------------- one evaluation

  /** The counter of one servo after an evaluation in which nothing faults. */
  function Counted(c: Setup, states: ServoStates, before: nat, id: u8): nat {
    match TelemetryOf(states, id)
    case None => before
    case Some(t) => if LowVoltageSeen(c.safety, t) then before + 1 else 0
  }

  predicate Faulty(c: Setup, states: ServoStates, strikes: map<u8, u8>, id: u8) {
    Counted(c, states, StrikesOf(strikes, id), id) >= 6
    || (TelemetryOf(states, id).Some? && TooHot(c.safety, TelemetryOf(states, id).value))
  }

  predicate Low(c: Setup, strikes: map<u8, u8>) {
    (forall id <- strikes :: strikes[id] < 6)
    && (c.safety.minBusVoltageV <= 0.0 ==> forall id <- strikes :: strikes[id] == 0)
  }

  /** The loop over the servos from number `i` on: it faults exactly when one of them does,
      and otherwise each counter moves by its own servo's evaluation alone. */
  lemma {:induction false} ServosCounted(c: Setup, states: ServoStates, strikes: map<u8, u8>, i: nat)
    requires Distinct(c.ids) && i <= |c.ids| && Low(c, strikes)
    ensures var (after, fault) := CheckServos(c.safety, c.ids, states, strikes, i);
            && (fault.Some? <==> exists j :: i <= j < |c.ids| && Faulty(c, states, strikes, c.ids[j]))
            && (fault.None? ==> Low(c, after))
            && (fault.None? ==> forall j :: i <= j < |c.ids| ==>
                  StrikesOf(after, c.ids[j]) == Counted(c, states, StrikesOf(strikes, c.ids[j]), c.ids[j]))
            && (fault.None? ==> forall j :: 0 <= j < i ==>
                  StrikesOf(after, c.ids[j]) == StrikesOf(strikes, c.ids[j]))
    decreases |c.ids| - i
  {
    if i < |c.ids| {
      var id := c.ids[i];
      match TelemetryOf(states, id)
      case None =>
        ServosCounted(c, states, strikes, i + 1);
      case Some(t) =>
        var counted := VoltageStrikes(c.safety, strikes, id, t);
        assert ServoFault(c.safety, counted, id, t).Some? <==> Faulty(c, states, strikes, id);
        if ServoFault(c.safety, counted, id, t).None? {
          assert Low(c, counted);
          forall j | 0 <= j < |c.ids| && j != i
            ensures StrikesOf(counted, c.ids[j]) == StrikesOf(strikes, c.ids[j])
          {
            assert c.ids[j] != id;
          }
          ServosCounted(c, states, counted, i + 1);
        }
    }
  }

  // --------------------------------------------------------------------- whole histories

  /** The counters agree with the history and none has reached its threshold. */
  ghost predicate Agrees(c: Setup, ops: seq<Op>, m: Motion) {
    && m.mode == c.mode
    && (m.armedAt.Some? <==> IsArmed(ops))
    && m.bodyAttitudeStrikes == BodyRun(c, ops) < 3
    && Low(c, m.lowVoltageStrikes)
    && forall id :: id in c.ids ==> StrikesOf(m.lowVoltageStrikes, id) == VoltageRun(c, ops, id)
  }

  /** Some servo's run of low voltage, or the body's run over its limits, reaches its
      threshold with the latest evaluation, or a servo is too hot in it. */
  ghost predicate RunReaches(c: Setup, ops: seq<Op>, check: Op)
    requires check.CheckOp?
  {
    || BodyRun(c, ops + [check]) >= 3
    || (exists id :: id in c.ids && VoltageRun(c, ops + [check], id) >= 6)
    || Overheated(c, check.states)
  }

  lemma RunOfNext(c: Setup, ops: seq<Op>, check: Op, id: u8)
    requires check.CheckOp?
    ensures VoltageRun(c, ops + [check], id) == Counted(c, check.states, VoltageRun(c, ops, id), id)
  {
    assert Front(ops + [check]) == ops && Last(ops + [check]) == check;
  }

  lemma FaultyIffRunReaches(c: Setup, ops: seq<Op>, check: Op, m: Motion)
    requires check.CheckOp? && Agrees(c, ops, m)
    ensures (exists j :: 0 <= j < |c.ids| && Faulty(c, check.states, m.lowVoltageStrikes, c.ids[j]))
      <==> (exists id :: id in c.ids && VoltageRun(c, ops + [check], id) >= 6) || Overheated(c, check.states)
  {
    forall id | id in c.ids
      ensures Faulty(c, check.states, m.lowVoltageStrikes, id)
        <==> VoltageRun(c, ops + [check], id) >= 6
             || (TelemetryOf(check.states, id).Some? && TooHot(c.safety, TelemetryOf(check.states, id).value))
    {
      RunOfNext(c, ops, check, id);
    }
    if j :| 0 <= j < |c.ids| && Faulty(c, check.states, m.lowVoltageStrikes, c.ids[j]) {
      assert c.ids[j] in c.ids;
    }
    if id :| id in c.ids && Faulty(c, check.states, m.lowVoltageStrikes, id) {
      var j :| 0 <= j < |c.ids| && c.ids[j] == id;
      assert Faulty(c, check.states, m.lowVoltageStrikes, c.ids[j]);
    }
  }

  lemma BodyCounted(c: Setup, ops: seq<Op>, check: Op, m: Motion)
    requires check.CheckOp? && Agrees(c, ops, m)
    ensures var (body, fault) := CheckAttitude(c.mode, c.safety, check.imu, m.bodyAttitudeStrikes);
            body == BodyRun(c, ops + [check]) && (fault.Some? <==> body >= 3)
  {
    assert Front(ops + [check]) == ops && Last(ops + [check]) == check;
  }

  /** From counters that agree with history, an evaluation trips exactly when a run reaches
      its threshold, and otherwise leaves counters that agree with the longer history. */
  lemma OneEvaluation(c: Setup, ops: seq<Op>, check: Op, m: Motion)
    requires check.CheckOp? && Distinct(c.ids) && Agrees(c, ops, m)
    ensures Apply(c, m, check).1.Some? <==> RunReaches(c, ops, check)
    ensures Apply(c, m, check).1.None? ==> Agrees(c, ops + [check], Apply(c, m, check).0)
  {
    hide ServoFault, CheckAttitude, VoltageRun, Faulty, Counted, BodyRun;
    BodyCounted(c, ops, check, m);
    ServosCounted(c, check.states, m.lowVoltageStrikes, 0);
    FaultyIffRunReaches(c, ops, check, m);
    assert Front(ops + [check]) == ops && Last(ops + [check]) == check;
    if Apply(c, m, check).1.None? {
      var after := Apply(c, m, check).0;
      forall id | id in c.ids
        ensures StrikesOf(after.lowVoltageStrikes, id) == VoltageRun(c, ops + [check], id)
      {
        RunOfNext(c, ops, check, id);
        var j :| 0 <= j < |c.ids| && c.ids[j] == id;
      }
    }
  }

  /** Strike counters refine history: after every run in which nothing tripped, each counter
      is the length of its run. */
  lemma {:induction false} CountersAreRuns(c: Setup, ops: seq<Op>)
    requires Distinct(c.ids) && Untripped(c, ops)
    ensures Agrees(c, ops, Replay(c, ops))
    decreases |ops|
  {
    if ops != [] {
      CountersAreRuns(c, Front(ops));
      assert Front(ops) + [Last(ops)] == ops;
      if Last(ops).CheckOp? {
        OneEvaluation(c, Front(ops), Last(ops), Replay(c, Front(ops)));
      }
    }
  }

  /** A trip happens exactly when a run reaches its threshold: 3 looks at the body, 6 at a
      servo's voltage (a single look at an overheated servo). */
  lemma TripsExactlyAtThreshold(c: Setup, ops: seq<Op>, check: Op)
    requires Distinct(c.ids) && Untripped(c, ops) && check.CheckOp?
    ensures Apply(c, Replay(c, ops), check).1.Some? <==> RunReaches(c, ops, check)
  {
    CountersAreRuns(c, ops);
    OneEvaluation(c, ops, check, Replay(c, ops));
  }
}
