/** The motion runtime of the brain: arming, latched faults, safety strikes and the pose it
    commands. The class updates its fields in place; each method is proved to follow the
    function of the same step on the value `Motion`. */
module Motion {
  import opened Results
  import opened Words
  import opened ServoPoll
  import opened Reals

  const LOW_VOLTAGE_STRIKES_TO_TRIP: u8 := 6
  const BODY_ATTITUDE_STRIKES_TO_TRIP: u8 := 3
  const BODY_ATTITUDE_ACCEL_NORM_TOLERANCE_MPS2 := 2.5

  datatype BrainMode =
    | Telemetry_ | Manual | TiltedStand | LayDown | SitDown | StandUp | StandUpHigh | Stand
    | StandHigh | SlowWalk | SlowWalkHigh | BackwardWalk | BackwardWalkHigh | RotateLeft
    | RotateRight | SidewalkLeft | SidewalkLeftHigh | SidewalkRight | SidewalkRightHigh
  {
    predicate RequiresTorque() { this != Telemetry_ }

    predicate EnforcesBodyAttitudeLimits() { this != Telemetry_ && this != Manual }
  }

  datatype FaultReason =
    | BodyRoll | BodyPitch | LowVoltage(voltageId: u8) | OverTemperature(temperatureId: u8)
    | LinkDropped | ManualUtilityFailed | SendFailed

  datatype SafetyConfig = SafetyConfig(
    maxBodyRollDeg: real, maxBodyPitchDeg: real, minBusVoltageV: real, maxServoTempC: u8)

  datatype ImuState = ImuState(
    rollDeg: Option<real>, pitchDeg: Option<real>, accelNormMps2: Option<real>)

  datatype Motion = Motion(
    mode: BrainMode,
    armedAt: Option<real>,
    initialPose: Option<Pose>,
    holdPose: Option<Pose>,
    bodyAttitudeStrikes: u8,
    lowVoltageStrikes: map<u8, u8>,
    fault: Option<FaultReason>)

  function New(mode: BrainMode): Motion {
    Motion(mode, None, None, None, 0, map[], None)
  }

  // ------------------------------------------------------------------- arming and faults

  function Arm(m: Motion, pose: Pose, now: real): Motion {
    if m.armedAt.Some? then m
    else m.(armedAt := Some(now), initialPose := Some(pose), holdPose := Some(pose),
            bodyAttitudeStrikes := 0)
  }

  function Disarm(m: Motion): Motion {
    m.(armedAt := None, initialPose := None, bodyAttitudeStrikes := 0)
  }

  function TripFault(m: Motion, reason: FaultReason, hold: Option<Pose>): Motion {
    if m.fault.Some? then m
    else m.(holdPose := if hold.Some? then hold else m.holdPose, fault := Some(reason))
  }

  // ----------------------------------------------------------------------------- safety

  function SaturatingInc(x: u8): u8 { if x < 255 then x + 1 else 255 }

  predicate Exceeds(angle: Option<real>, limit: real) {
    angle.Some? && Abs(angle.value) > limit
  }

  /** What one look at the IMU says about the body's attitude. */
  datatype Verdict = Skipped | Calm | Strike(reason: FaultReason)

  predicate NearGravity(imu: ImuState) {
    imu.accelNormMps2.Some? ==>
      Abs(imu.accelNormMps2.value - 9.81) <= BODY_ATTITUDE_ACCEL_NORM_TOLERANCE_MPS2
  }

  function Attitude(safety: SafetyConfig, imu: Option<ImuState>): Verdict {
    match imu
    case None => Skipped
    case Some(state) =>
      if !NearGravity(state) then Calm
      else if Exceeds(state.rollDeg, safety.maxBodyRollDeg) then Strike(BodyRoll)
      else if Exceeds(state.pitchDeg, safety.maxBodyPitchDeg) then Strike(BodyPitch)
      else Calm
  }

  /** The attitude counter after one look, and the fault it trips. */
  function CheckAttitude(mode: BrainMode, safety: SafetyConfig, imu: Option<ImuState>, strikes: u8)
    : (u8, Option<FaultReason>)
  {
    if !mode.EnforcesBodyAttitudeLimits() then (0, None)
    else match Attitude(safety, imu)
         case Skipped => (strikes, None)
         case Calm => (0, None)
         case Strike(reason) =>
           var s := SaturatingInc(strikes);
           (s, if s >= BODY_ATTITUDE_STRIKES_TO_TRIP then Some(reason) else None)
  }

  function StrikesOf(strikes: map<u8, u8>, id: u8): u8 {
    if id in strikes then strikes[id] else 0
  }

  predicate LowVoltageSeen(safety: SafetyConfig, t: Telemetry) {
    safety.minBusVoltageV > 0.0 && t.voltageV < safety.minBusVoltageV
  }

  predicate TooHot(safety: SafetyConfig, t: Telemetry) {
    t.temperatureC.Some? && t.temperatureC.value > safety.maxServoTempC
  }

  /** The voltage counters after looking at one servo's telemetry. */
  function VoltageStrikes(safety: SafetyConfig, strikes: map<u8, u8>, id: u8, t: Telemetry): map<u8, u8> {
    if safety.minBusVoltageV > 0.0 then
      if LowVoltageSeen(safety, t) then strikes[id := SaturatingInc(StrikesOf(strikes, id))]
      else strikes - {id}
    else map[]
  }

  function ServoFault(safety: SafetyConfig, strikes: map<u8, u8>, id: u8, t: Telemetry): Option<FaultReason> {
    if LowVoltageSeen(safety, t) && StrikesOf(strikes, id) >= LOW_VOLTAGE_STRIKES_TO_TRIP then
      Some(LowVoltage(id))
    else if TooHot(safety, t) then Some(OverTemperature(id))
    else None
  }

  /** The servos from number `i` on, in order, up to the first that faults. */
  function CheckServos(safety: SafetyConfig, ids: seq<u8>, states: ServoStates,
                       strikes: map<u8, u8>, i: nat): (map<u8, u8>, Option<FaultReason>)
    requires i <= |ids|
    decreases |ids| - i
  {
    if i == |ids| then (strikes, None)
    else match TelemetryOf(states, ids[i])
         case None => CheckServos(safety, ids, states, strikes, i + 1)
         case Some(t) =>
           var counted := VoltageStrikes(safety, strikes, ids[i], t);
           var fault := ServoFault(safety, counted, ids[i], t);
           if fault.Some? then (counted, fault)
           else CheckServos(safety, ids, states, counted, i + 1)
  }

  function CheckSafety(m: Motion, safety: SafetyConfig, ids: seq<u8>, states: ServoStates,
                       imu: Option<ImuState>): (Motion, Option<FaultReason>)
  {
    var (body, attitude) := CheckAttitude(m.mode, safety, imu, m.bodyAttitudeStrikes);
    if attitude.Some? then (m.(bodyAttitudeStrikes := body), attitude)
    else
      var (volts, fault) := CheckServos(safety, ids, states, m.lowVoltageStrikes, 0);
      (m.(bodyAttitudeStrikes := body, lowVoltageStrikes := volts), fault)
  }

  // --------------------------------------------------------------------------- commands

  function BasePose(m: Motion, fallback: Pose): Pose {
    if m.initialPose.Some? then m.initialPose.value
    else if m.holdPose.Some? then m.holdPose.value
    else fallback
  }

  /** The pose each mode derives from its base pose, some seconds after arming. */
  type Goals = (BrainMode, Pose, real) -> Pose

  /** The pose to command, if any; `fallback` stands for the mode's configured fallback pose. */
  function Commands(m: Motion, goal: Goals, fallback: Pose, now: real): (Motion, Option<Pose>) {
    if m.mode == Telemetry_ then (m, None)
    else
      var base := BasePose(m, fallback);
      if m.fault.None? && m.armedAt.None? then (m, None)
      else
        var target := if m.fault.None? then goal(m.mode, base, now - m.armedAt.value)
                      else if m.holdPose.Some? then m.holdPose.value
                      else base;
        (m.(holdPose := Some(target)), Some(target))
  }

  // -------------------------------------------------------------------------- the object

  class MotionRuntime {
    var mode: BrainMode
    var armedAt: Option<real>
    var initialPose: Option<Pose>
    var holdPose: Option<Pose>
    var bodyAttitudeStrikes: u8
    var lowVoltageStrikes: map<u8, u8>
    var fault: Option<FaultReason>

    ghost function Value(): Motion
      reads this
    {
      Motion(mode, armedAt, initialPose, holdPose, bodyAttitudeStrikes, lowVoltageStrikes, fault)
    }

    constructor (mode: BrainMode)
      ensures Value() == New(mode)
    {
      this.mode := mode;
      armedAt, initialPose, holdPose := None, None, None;
      bodyAttitudeStrikes, lowVoltageStrikes, fault := 0, map[], None;
    }

    method ArmAt(pose: Pose, now: real)
      modifies this
      ensures Value() == Arm(old(Value()), pose, now)
    {
      if armedAt.Some? {
        return;
      }
      armedAt := Some(now);
      initialPose := Some(pose);
      holdPose := Some(pose);
      bodyAttitudeStrikes := 0;
    }

    method DisarmNow()
      modifies this
      ensures Value() == Disarm(old(Value()))
    {
      armedAt := None;
      initialPose := None;
      bodyAttitudeStrikes := 0;
    }

    method Trip(reason: FaultReason, hold: Option<Pose>)
      modifies this
      ensures Value() == TripFault(old(Value()), reason, hold)
    {
      if fault.Some? {
        return;
      }
      if hold.Some? {
        holdPose := hold;
      }
      fault := Some(reason);
    }

    method BodyAttitudeFault(safety: SafetyConfig, imu: Option<ImuState>) returns (r: Option<FaultReason>)
      modifies this`bodyAttitudeStrikes
      ensures (bodyAttitudeStrikes, r) == CheckAttitude(mode, safety, imu, old(bodyAttitudeStrikes))
    {
      if !mode.EnforcesBodyAttitudeLimits() {
        bodyAttitudeStrikes := 0;
        return None;
      }
      if imu.None? {
        return None;
      }
      var state := imu.value;
      var reason: Option<FaultReason> := None;
      if Exceeds(state.rollDeg, safety.maxBodyRollDeg) {
        reason := Some(BodyRoll);
      } else if Exceeds(state.pitchDeg, safety.maxBodyPitchDeg) {
        reason := Some(BodyPitch);
      }
      if reason.Some? {
        if NearGravity(state) {
          bodyAttitudeStrikes := SaturatingInc(bodyAttitudeStrikes);
          if bodyAttitudeStrikes >= BODY_ATTITUDE_STRIKES_TO_TRIP {
            return reason;
          }
        } else {
          bodyAttitudeStrikes := 0;
        }
      } else {
        bodyAttitudeStrikes := 0;
      }
      return None;
    }

    method Check(safety: SafetyConfig, ids: seq<u8>, states: ServoStates, imu: Option<ImuState>)
      returns (r: Option<FaultReason>)
      modifies this`bodyAttitudeStrikes, this`lowVoltageStrikes
      ensures (Value(), r) == CheckSafety(old(Value()), safety, ids, states, imu)
    {
      r := BodyAttitudeFault(safety, imu);
      if r.Some? {
        return;
      }
      ghost var body := bodyAttitudeStrikes;
      for i := 0 to |ids|
        invariant bodyAttitudeStrikes == body
        invariant CheckServos(safety, ids, states, lowVoltageStrikes, i)
               == CheckServos(safety, ids, states, old(lowVoltageStrikes), 0)
      {
        var id := ids[i];
        var known := TelemetryOf(states, id);
        if known.Some? {
          var t := known.value;
          if safety.minBusVoltageV > 0.0 {
            if t.voltageV < safety.minBusVoltageV {
              lowVoltageStrikes := lowVoltageStrikes[id := SaturatingInc(StrikesOf(lowVoltageStrikes, id))];
              if lowVoltageStrikes[id] >= LOW_VOLTAGE_STRIKES_TO_TRIP {
                return Some(LowVoltage(id));
              }
            } else {
              lowVoltageStrikes := lowVoltageStrikes - {id};
            }
          } else {
            lowVoltageStrikes := map[];
          }
          if TooHot(safety, t) {
            return Some(OverTemperature(id));
          }
        }
      }
      return None;
    }

    method NextCommands(goal: Goals, fallback: Pose, now: real) returns (r: Option<Pose>)
      modifies this`holdPose
      ensures (Value(), r) == Commands(old(Value()), goal, fallback, now)
    {
      if mode == Telemetry_ {
        return None;
      }
      var base := if initialPose.Some? then initialPose.value
                  else if holdPose.Some? then holdPose.value
                  else fallback;
      var target;
      if fault.Some? {
        target := if holdPose.Some? then holdPose.value else base;
      } else {
        if armedAt.None? {
          return None;
        }
        target := goal(mode, base, now - armedAt.value);
      }
      holdPose := Some(target);
      return Some(target);
    }
  }
}
