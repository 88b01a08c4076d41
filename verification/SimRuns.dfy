/** The controller over the simulated bus: taking hold of the servos where they stand, and
    driving them to the stand pose. */
module SimRuns {
  import opened Results
  import opened Words
  import opened Ticks
  import opened SimBus

  const STAND_SPEED: u16 := 200
  const STAND_ACCELERATION: u8 := 10

  // ------------------------------------------------------------------ poses as commands

  /** The commands of a pose for servo ids below `n`, in ascending order. */
  function CommandsBelow(pose: Pose, speed: u16, acceleration: u8, n: nat): (commands: seq<JointCommand>)
    requires n <= 256
  {
    if n == 0 then []
    else if n - 1 in pose then
      CommandsBelow(pose, speed, acceleration, n - 1) + [JointCommand(n - 1, pose[n - 1], speed, acceleration)]
    else CommandsBelow(pose, speed, acceleration, n - 1)
  }

  function CommandsOf(pose: Pose, speed: u16, acceleration: u8): seq<JointCommand> {
    CommandsBelow(pose, speed, acceleration, 256)
  }

  method PoseToCommands(pose: Pose, speed: u16, acceleration: u8) returns (commands: seq<JointCommand>)
    ensures commands == CommandsOf(pose, speed, acceleration)
  {
    commands := [];
    for n := 0 to 256
      invariant commands == CommandsBelow(pose, speed, acceleration, n)
    {
      if n in pose {
        commands := commands + [JointCommand(n, pose[n], speed, acceleration)];
      }
    }
  }

  // ------------------------------------------------------------------------- HAL helpers

  /** Reading servos one after another, up to the first that fails. */
  function ReadAll(b: Bus, ids: seq<u8>, n: nat): (Bus, Result<seq<Feedback>, HalError>)
    requires n <= |ids|
  {
    if n == 0 then (b, Ok([]))
    else
      var (b1, r) := ReadAll(b, ids, n - 1);
      if r.Err? then (b1, r)
      else
        var (b2, f) := Read(b1, ids[n - 1]);
        (b2, if f.Ok? then Ok(r.value + [f.value]) else Err(f.error))
  }

  function PoseOf(feedback: seq<Feedback>): Pose
    decreases |feedback|
  {
    if feedback == [] then map[]
    else
      var last := feedback[|feedback| - 1];
      PoseOf(feedback[..|feedback| - 1])[last.servoId := last.positionTicks]
  }

  function SyncCurrentPose(b: Bus, ids: seq<u8>): (Bus, Result<(), HalError>) {
    var (b1, r) := ReadAll(b, ids, |ids|);
    if r.Err? then (b1, Err(r.error)) else SyncWrite(b1, CommandsOf(PoseOf(r.value), 0, 0))
  }

  /** `enable_torque_on_current_position`, which is all of `initialize` the bus sees. */
  function Initialize(b: Bus): (Bus, Result<(), HalError>) {
    var (b1, r) := SyncCurrentPose(b, b.ids);
    if r.Err? then (b1, r) else (b1.(torqueEnabled := true), Ok(()))
  }

  function StepStand(b: Bus, stand: Pose): (Bus, Result<seq<Feedback>, HalError>) {
    var (b1, r) := SyncWrite(b, CommandsOf(stand, STAND_SPEED, STAND_ACCELERATION));
    if r.Err? then (b1, Err(r.error)) else ReadAll(b1, b.ids, |b.ids|)
  }

  /** The controller drives the bus it owns; its camera and IMU do not touch the servos. */
  class SpiderController {
    const stand: Pose
    const bus: SimServoBus

    constructor (stand: Pose, bus: SimServoBus)
      ensures this.stand == stand && this.bus == bus
    {
      this.stand := stand;
      this.bus := bus;
    }

    method PollServos(ids: seq<u8>) returns (r: Result<seq<Feedback>, HalError>)
      modifies bus`servos
      ensures (bus.Value(), r) == ReadAll(old(bus.Value()), ids, |ids|)
    {
      var telemetry: seq<Feedback> := [];
      for i := 0 to |ids|
        invariant (bus.Value(), Ok(telemetry)) == ReadAll(old(bus.Value()), ids, i)
      {
        var f := bus.ReadFeedback(ids[i]);
        if f.Err? {
          ReadingStops(old(bus.Value()), ids, i + 1, |ids|);
          return Err(f.error);
        }
        telemetry := telemetry + [f.value];
      }
      return Ok(telemetry);
    }

    method ReadCurrentPose(ids: seq<u8>) returns (r: Result<Pose, HalError>)
      modifies bus`servos
      ensures var (b, all) := ReadAll(old(bus.Value()), ids, |ids|);
              bus.Value() == b && r == if all.Ok? then Ok(PoseOf(all.value)) else Err(all.error)
    {
      var all := PollServos(ids);
      if all.Err? {
        return Err(all.error);
      }
      var pose: Pose := map[];
      for i := 0 to |all.value|
        invariant pose == PoseOf(all.value[..i])
      {
        assert all.value[..i + 1][..i] == all.value[..i];
        pose := pose[all.value[i].servoId := all.value[i].positionTicks];
      }
      assert all.value[..|all.value|] == all.value;
      return Ok(pose);
    }

    method InitializeServos() returns (r: Result<(), HalError>)
      modifies bus
      ensures (bus.Value(), r) == Initialize(old(bus.Value()))
    {
      var pose := ReadCurrentPose(bus.ids);
      if pose.Err? {
        return Err(pose.error);
      }
      var commands := PoseToCommands(pose.value, 0, 0);
      r := bus.SyncWritePositions(commands);
      if r.Err? {
        return;
      }
      bus.SetTorque(true);
    }

    method StepStandReferencePose() returns (r: Result<seq<Feedback>, HalError>)
      modifies bus
      ensures (bus.Value(), r) == StepStand(old(bus.Value()), stand)
    {
      var commands := PoseToCommands(stand, STAND_SPEED, STAND_ACCELERATION);
      var w := bus.SyncWritePositions(commands);
      if w.Err? {
        return Err(w.error);
      }
      r := PollServos(bus.ids);
    }
  }

  /** After a failed read nothing more is read. */
  lemma {:induction false} ReadingStops(b: Bus, ids: seq<u8>, i: nat, n: nat)
    requires i <= n <= |ids| && ReadAll(b, ids, i).1.Err?
    ensures ReadAll(b, ids, n) == ReadAll(b, ids, i)
    decreases n
  {
    if i < n {
      ReadingStops(b, ids, i, n - 1);
    }
  }

  // ------------------------------------------------------------------------ whole passes

  /** Every servo is listed once, known, and within the tick range. */
  ghost predicate Wired(b: Bus) {
    && b.maxStepTicks >= 1 && Distinct(b.ids)
    && (forall id :: id in b.servos <==> id in b.ids)
    && (forall id :: id in b.servos ==> InRange(b.servos[id]))
  }

  ghost predicate StandsFor(stand: Pose, b: Bus) {
    stand.Keys == b.servos.Keys && forall id :: id in stand ==> stand[id] <= MAX_TICK
  }

  /** The servos once the first `n` have taken the step a reading makes. */
  ghost function Stepped(b: Bus, n: nat): map<u8, Servo>
    requires n <= |b.ids|
  {
    map id | id in b.servos :: if id in b.ids[..n] then Advance(b.servos[id], b.maxStepTicks).0 else b.servos[id]
  }

  lemma SteppedOnce(b: Bus, n: nat)
    requires Wired(b) && n < |b.ids|
    ensures b.ids[n] in b.servos && b.ids[n] in Stepped(b, n)
    ensures Stepped(b, n)[b.ids[n]] == b.servos[b.ids[n]]
    ensures Stepped(b, n + 1) == Stepped(b, n)[b.ids[n] := Advance(b.servos[b.ids[n]], b.maxStepTicks).0]
  {
    hide Advance, InRange;
    assert b.ids[n] in b.ids;
    assert b.ids[..n + 1] == b.ids[..n] + [b.ids[n]];
  }

  lemma SteppedNone(b: Bus)
    ensures Stepped(b, 0) == b.servos
  {
    hide Advance;
  }

  lemma ReadOne(b: Bus, n: nat)
    requires Wired(b) && n < |b.ids|
    ensures var id := b.ids[n];
            var (after, r) := Read(b.(servos := Stepped(b, n)), id);
            && after == b.(servos := Stepped(b, n + 1))
            && r.Ok? && r.value.servoId == id
            && r.value.positionTicks == Advance(b.servos[id], b.maxStepTicks).0.present
  {
    hide Advance, CurrentDraw, Stepped, Wired;
    SteppedOnce(b, n);
  }

  ghost predicate Reports(b: Bus, feedback: seq<Feedback>) {
    && |feedback| <= |b.ids|
    && forall k :: 0 <= k < |feedback| ==>
         feedback[k].servoId == b.ids[k] && b.ids[k] in b.servos
         && feedback[k].positionTicks == Advance(b.servos[b.ids[k]], b.maxStepTicks).0.present
  }

  /** Reading the first `n` servos steps exactly those, once each, and reports where they
      then are. */
  lemma {:induction false} ReadAllSteps(b: Bus, n: nat)
    requires Wired(b) && n <= |b.ids|
    ensures var (after, r) := ReadAll(b, b.ids, n);
            && after == b.(servos := Stepped(b, n))
            && r.Ok? && |r.value| == n && Reports(b, r.value)
  {
    hide Advance, Stepped, Wired, Read;
    if n == 0 {
      SteppedNone(b);
    } else {
      ReadAllSteps(b, n - 1);
      ReadOne(b, n - 1);
      SteppedOnce(b, n - 1);
    }
  }

  /** The servos once those of the pose with ids below `n` have taken their command. */
  ghost function Posed(servos: map<u8, Servo>, maxStepTicks: u16, pose: Pose, speed: u16, acceleration: u8,
                       n: nat): map<u8, Servo> {
    map id | id in servos ::
      if id in pose && id < n
      then Commanded(servos[id], JointCommand(id, pose[id], speed, acceleration), maxStepTicks)
      else servos[id]
  }

  /** Writing a pose commands exactly its servos, once each. */
  lemma {:induction false} PoseIsWritten(servos: map<u8, Servo>, maxStepTicks: u16, pose: Pose, speed: u16,
                                         acceleration: u8, n: nat)
    requires pose.Keys <= servos.Keys && n <= 256
    ensures var commands := CommandsBelow(pose, speed, acceleration, n);
            Written(servos, maxStepTicks, commands, |commands|)
            == (Posed(servos, maxStepTicks, pose, speed, acceleration, n), Ok(()))
  {
    hide Commanded;
    if n > 0 {
      PoseIsWritten(servos, maxStepTicks, pose, speed, acceleration, n - 1);
      var before := CommandsBelow(pose, speed, acceleration, n - 1);
      if n - 1 in pose {
        var c := JointCommand(n - 1, pose[n - 1], speed, acceleration);
        WrittenPrefix(servos, maxStepTicks, before, [c], |before|);
        assert Posed(servos, maxStepTicks, pose, speed, acceleration, n)
            == Posed(servos, maxStepTicks, pose, speed, acceleration, n - 1)
               [n - 1 := Commanded(servos[n - 1], c, maxStepTicks)];
      } else {
        assert Posed(servos, maxStepTicks, pose, speed, acceleration, n)
            == Posed(servos, maxStepTicks, pose, speed, acceleration, n - 1);
      }
    } else {
      assert Posed(servos, maxStepTicks, pose, speed, acceleration, 0) == servos;
    }
  }

  lemma {:induction false} WrittenPrefix(servos: map<u8, Servo>, maxStepTicks: u16, commands: seq<JointCommand>,
                                         more: seq<JointCommand>, n: nat)
    requires n <= |commands|
    ensures Written(servos, maxStepTicks, commands + more, n) == Written(servos, maxStepTicks, commands, n)
  {
    hide Commanded;
    if n > 0 {
      WrittenPrefix(servos, maxStepTicks, commands, more, n - 1);
    }
  }

  lemma {:induction false} PoseOfFeedback(feedback: seq<Feedback>)
    requires forall i, j :: 0 <= i < j < |feedback| ==> feedback[i].servoId != feedback[j].servoId
    ensures forall id :: id in PoseOf(feedback) <==> exists k :: 0 <= k < |feedback| && feedback[k].servoId == id
    ensures forall k :: 0 <= k < |feedback| ==>
              && feedback[k].servoId in PoseOf(feedback)
              && PoseOf(feedback)[feedback[k].servoId] == feedback[k].positionTicks
    decreases |feedback|
  {
    if feedback != [] {
      PoseOfFeedback(feedback[..|feedback| - 1]);
    }
  }

  // -------------------------------------------------------------------------- convergence

  /** A servo held where it stands. */
  predicate AtRest(s: Servo) { s.present == s.target && s.speed == 0 && !s.moving }

  lemma FeedbackPose(b: Bus, feedback: seq<Feedback>)
    requires Wired(b) && |feedback| == |b.ids| && Reports(b, feedback)
    ensures PoseOf(feedback) == map id | id in b.servos :: Advance(b.servos[id], b.maxStepTicks).0.present
  {
    hide Advance, InRange;
    PoseOfFeedback(feedback);
    var pose := PoseOf(feedback);
    forall id | id in b.servos
      ensures id in pose && pose[id] == Advance(b.servos[id], b.maxStepTicks).0.present
    {
      var k :| 0 <= k < |b.ids| && b.ids[k] == id;
      assert feedback[k].servoId == id;
    }
    forall id | id in pose
      ensures id in b.servos
    {
      var k :| 0 <= k < |feedback| && feedback[k].servoId == id;
      assert b.ids[k] in b.ids;
    }
  }

  lemma ReadBack(b: Bus)
    requires Wired(b)
    ensures var (after, r) := ReadAll(b, b.ids, |b.ids|);
            && r.Ok? && PoseOf(r.value).Keys == b.servos.Keys == after.servos.Keys
            && after == b.(servos := after.servos)
            && forall id :: id in b.servos ==>
                 && after.servos[id] == Advance(b.servos[id], b.maxStepTicks).0
                 && PoseOf(r.value)[id] == after.servos[id].present
  {
    hide Advance, InRange, ReadAll, PoseOf;
    ReadAllSteps(b, |b.ids|);
    assert b.ids[..|b.ids|] == b.ids;
    FeedbackPose(b, ReadAll(b, b.ids, |b.ids|).1.value);
  }

  /** Initializing succeeds, moves no servo by more than the one step its reading makes, and
      leaves every servo at rest where it then stands, with the torque on. */
  lemma InitializeHolds(b: Bus)
    requires Wired(b)
    ensures var (after, r) := Initialize(b);
            && r.Ok? && Wired(after) && after.torqueEnabled
            && after.servos.Keys == b.servos.Keys && after.ids == b.ids && after.maxStepTicks == b.maxStepTicks
            && forall id :: id in b.servos ==>
                 AtRest(after.servos[id])
                 && after.servos[id].present == Advance(b.servos[id], b.maxStepTicks).0.present
  {
    hide ReadAll, Advance, Written, PoseOf;
    ReadBack(b);
    var (b1, r) := ReadAll(b, b.ids, |b.ids|);
    PoseIsWritten(b1.servos, b.maxStepTicks, PoseOf(r.value), 0, 0, 256);
    forall id | id in b.servos
      ensures InRange(b1.servos[id])
    {
      StepTowards(b.servos[id], b.maxStepTicks);
    }
    forall id | id in b.servos
      ensures Commanded(b1.servos[id], JointCommand(id, b1.servos[id].present, 0, 0), b.maxStepTicks)
           == Servo(b1.servos[id].present, b1.servos[id].present, 0, false)
    {
      HeldInPlace(b1.servos[id], id, b.maxStepTicks);
    }
  }

  lemma HeldInPlace(s: Servo, id: u8, maxStepTicks: u16)
    ensures Commanded(s, JointCommand(id, s.present, 0, 0), maxStepTicks) == Servo(s.present, s.present, 0, false)
  {
  }

  /** The servo's way in one call: a step when written, a step when read. */
  function StepLength(b: Bus): nat { StepLimit(STAND_SPEED, b.maxStepTicks) }

  lemma StepLengthIs(b: Bus)
    requires b.maxStepTicks >= 1
    ensures StepLength(b) == if b.maxStepTicks < 200 then b.maxStepTicks else 200
  {
  }

  /** A servo on its way: aimed at `goal` with the stand speed, moving exactly if not there. */
  predicate Aimed(s: Servo, goal: u16) {
    InRange(s) && s.target == goal && s.speed == STAND_SPEED && (s.moving <==> s.present != goal)
  }

  lemma CommandSteps(s: Servo, goal: u16, maxStepTicks: u16)
    requires InRange(s) && goal <= MAX_TICK
    ensures var after := Commanded(s, JointCommand(0, goal, STAND_SPEED, STAND_ACCELERATION), maxStepTicks);
            Aimed(after, goal)
            && after.present == s.present + Limit(goal - s.present, StepLimit(STAND_SPEED, maxStepTicks))
  {
    StepTowards(Servo(s.present, goal, STAND_SPEED, s.present != goal), maxStepTicks);
  }

  lemma CommandIgnoresId(s: Servo, id: u8, goal: u16, speed: u16, acceleration: u8, maxStepTicks: u16)
    ensures Commanded(s, JointCommand(id, goal, speed, acceleration), maxStepTicks)
         == Commanded(s, JointCommand(0, goal, speed, acceleration), maxStepTicks)
  {
  }

  lemma WriteAims(b: Bus, stand: Pose)
    requires Wired(b) && StandsFor(stand, b)
    ensures var (after, r) := SyncWrite(b, CommandsOf(stand, STAND_SPEED, STAND_ACCELERATION));
            && r.Ok? && Wired(after) && Gone(b, after, stand, StepLength(b)) && AllAimed(after, stand)
  {
    hide Limit, StepLimit, Written, Commanded;
    PoseIsWritten(b.servos, b.maxStepTicks, stand, STAND_SPEED, STAND_ACCELERATION, 256);
    forall id | id in b.servos
      ensures var c := JointCommand(id, stand[id], STAND_SPEED, STAND_ACCELERATION);
              var after := Commanded(b.servos[id], c, b.maxStepTicks);
              Aimed(after, stand[id])
              && after.present == b.servos[id].present + Limit(stand[id] - b.servos[id].present, StepLength(b))
    {
      CommandIgnoresId(b.servos[id], id, stand[id], STAND_SPEED, STAND_ACCELERATION, b.maxStepTicks);
      CommandSteps(b.servos[id], stand[id], b.maxStepTicks);
    }
  }

  /** Every servo has gone `m` ticks of its way to the stand pose, or all of it. */
  ghost predicate Gone(b: Bus, after: Bus, stand: Pose, m: nat)
    requires StandsFor(stand, b)
  {
    && after.servos.Keys == b.servos.Keys && after.ids == b.ids && after.maxStepTicks == b.maxStepTicks
    && forall id :: id in b.servos ==>
         after.servos[id].present == b.servos[id].present + Limit(stand[id] - b.servos[id].present, m)
  }

  ghost predicate AllAimed(b: Bus, stand: Pose)
    requires StandsFor(stand, b)
  {
    forall id :: id in stand ==> Aimed(b.servos[id], stand[id])
  }

  lemma GoneTwice(b: Bus, b1: Bus, after: Bus, stand: Pose, m: nat, n: nat)
    requires StandsFor(stand, b) && Gone(b, b1, stand, m) && Gone(b1, after, stand, n)
    ensures Gone(b, after, stand, m + n)
  {
    hide Limit;
    forall id | id in b.servos
      ensures after.servos[id].present == b.servos[id].present + Limit(stand[id] - b.servos[id].present, m + n)
    {
      LimitsAdd(stand[id] - b.servos[id].present, m, n);
    }
  }

  lemma AimedStep(s: Servo, goal: u16, maxStepTicks: u16)
    requires Aimed(s, goal)
    ensures var after := Advance(s, maxStepTicks).0;
            Aimed(after, goal)
            && after.present == s.present + Limit(goal - s.present, StepLimit(STAND_SPEED, maxStepTicks))
  {
    StepTowards(s, maxStepTicks);
  }

  lemma ReadApproaches(b: Bus, stand: Pose)
    requires Wired(b) && StandsFor(stand, b) && AllAimed(b, stand)
    ensures var (after, r) := ReadAll(b, b.ids, |b.ids|);
            r.Ok? && Wired(after) && Gone(b, after, stand, StepLength(b)) && AllAimed(after, stand)
  {
    hide Limit, StepLimit, ReadAll, Advance, Reports, InRange;
    ReadAllSteps(b, |b.ids|);
    assert b.ids[..|b.ids|] == b.ids;
    forall id | id in b.servos
      ensures var after := Advance(b.servos[id], b.maxStepTicks).0;
              Aimed(after, stand[id])
              && after.present == b.servos[id].present + Limit(stand[id] - b.servos[id].present, StepLength(b))
    {
      AimedStep(b.servos[id], stand[id], b.maxStepTicks);
    }
  }

  /** One call of the controller moves every servo by twice the step length towards the stand
      pose, or all the way. */
  lemma StepApproaches(b: Bus, stand: Pose)
    requires Wired(b) && StandsFor(stand, b)
    ensures var (after, r) := StepStand(b, stand);
            && r.Ok? && Wired(after) && Gone(b, after, stand, 2 * StepLength(b)) && AllAimed(after, stand)
  {
    hide Limit, StepLimit, ReadAll, Written, CommandsOf;
    WriteAims(b, stand);
    var b1 := SyncWrite(b, CommandsOf(stand, STAND_SPEED, STAND_ACCELERATION)).0;
    ReadApproaches(b1, stand);
    GoneTwice(b, b1, StepStand(b, stand).0, stand, StepLength(b), StepLength(b));
  }

  function AfterSteps(b: Bus, stand: Pose, k: nat): Bus {
    if k == 0 then b else StepStand(AfterSteps(b, stand, k - 1), stand).0
  }

  function Far(s: Servo, goal: u16): nat {
    if s.present < goal then goal - s.present else s.present - goal
  }

  /** The way `k` calls can make. */
  function Travel(k: nat, step: nat): nat { if k == 0 then 0 else Travel(k - 1, step) + 2 * step }

  lemma {:induction false} TravelIs(k: nat, step: nat)
    ensures Travel(k, step) == 2 * k * step
  {
    if k > 0 {
      TravelIs(k - 1, step);
      assert 2 * (k - 1) * step + 2 * step == 2 * k * step;
    }
  }

  lemma {:induction false} AfterStepsPosition(b: Bus, stand: Pose, k: nat)
    requires Wired(b) && StandsFor(stand, b)
    ensures var after := AfterSteps(b, stand, k);
            && Wired(after) && StandsFor(stand, after) && Gone(b, after, stand, Travel(k, StepLength(b)))
            && (k > 0 ==> AllAimed(after, stand))
  {
    hide StepStand, StepLength, Limit;
    if k == 0 {
      GoneNowhere(b, stand);
    } else {
      AfterStepsPosition(b, stand, k - 1);
      var before := AfterSteps(b, stand, k - 1);
      SameStepLength(b, before);
      StepApproaches(before, stand);
      hide Wired, AllAimed;
      GoneTwice(b, before, AfterSteps(b, stand, k), stand, Travel(k - 1, StepLength(b)), 2 * StepLength(b));
    }
  }

  lemma GoneNowhere(b: Bus, stand: Pose)
    requires StandsFor(stand, b)
    ensures Gone(b, b, stand, 0)
  {
  }

  lemma SameStepLength(b: Bus, v: Bus)
    requires b.maxStepTicks == v.maxStepTicks
    ensures StepLength(b) == StepLength(v)
  {
  }

  lemma LimitDistance(p: u16, goal: u16, m: nat)
    ensures var q := p + Limit(goal - p, m);
            && (if q < goal then goal - q else q - goal)
               == (var d := if p < goal then goal - p else p - goal; if d < m then 0 else d - m)
            && (p <= q <= goal || goal <= q <= p)
  {
  }

  /** From any wired bus: after initializing and `k` controller steps a servo's distance to the
      stand pose is exactly what it was after initializing, less `2 k` step lengths, but not
      below zero; it has stayed on its side of the goal; and it reports motion exactly while it
      has not arrived. */
  lemma Converges(b: Bus, stand: Pose, k: nat, id: u8)
    requires Wired(b) && StandsFor(stand, b) && id in b.servos
    ensures var start := Initialize(b).0;
            var after := AfterSteps(start, stand, k);
            && id in start.servos && id in after.servos
            && (var (s0, s, m) := (start.servos[id], after.servos[id], 2 * k * StepLength(start));
                && Far(s, stand[id]) == (if Far(s0, stand[id]) < m then 0 else Far(s0, stand[id]) - m)
                && (s0.present <= s.present <= stand[id] || stand[id] <= s.present <= s0.present)
                && (k > 0 ==> (s.moving <==> s.present != stand[id])))
  {
    hide Initialize, AfterSteps, StepLimit;
    InitializeHolds(b);
    var start := Initialize(b).0;
    AfterStepsPosition(start, stand, k);
    TravelIs(k, StepLength(start));
    LimitDistance(start.servos[id].present, stand[id], Travel(k, StepLength(start)));
  }

  /** Four thousand and ninety-five ticks are the longest way: after that many steps, whatever
      the step length, every servo stands. */
  lemma Arrives(b: Bus, stand: Pose, k: nat, id: u8)
    requires Wired(b) && StandsFor(stand, b) && id in b.servos && k >= 2048
    ensures id in AfterSteps(Initialize(b).0, stand, k).servos
    ensures AfterSteps(Initialize(b).0, stand, k).servos[id].present == stand[id]
    ensures !AfterSteps(Initialize(b).0, stand, k).servos[id].moving
  {
    hide Initialize, AfterSteps;
    Converges(b, stand, k, id);
    InitializeHolds(b);
    var start := Initialize(b).0;
    StepLengthIs(start);
    AtLeastTwice(k, StepLength(start));
  }

  lemma AtLeastTwice(k: nat, step: nat)
    requires step >= 1
    ensures 2 * k * step >= 2 * k
  {
    assert 2 * k * step == 2 * k + 2 * k * (step - 1);
  }

  /** A servo the bus does not know stops the initializing, with torque left as it was. */
  lemma {:induction false} UnknownServoStops(b: Bus, n: nat)
    requires n <= |b.ids| && exists k :: 0 <= k < n && b.ids[k] !in b.servos
    ensures ReadAll(b, b.ids, n).1.Err? && ReadAll(b, b.ids, n).0.torqueEnabled == b.torqueEnabled
    ensures n == |b.ids| ==> Initialize(b).1.Err? && Initialize(b).0.torqueEnabled == b.torqueEnabled
    decreases n
  {
    hide Advance;
    ReadsKeepTheRest(b, b.ids, n - 1);
    if exists k :: 0 <= k < n - 1 && b.ids[k] !in b.servos {
      UnknownServoStops(b, n - 1);
    }
  }

  lemma {:induction false} ReadsKeepTheRest(b: Bus, ids: seq<u8>, n: nat)
    requires n <= |ids|
    ensures var after := ReadAll(b, ids, n).0;
            after.torqueEnabled == b.torqueEnabled && after.servos.Keys == b.servos.Keys && after.ids == b.ids
    decreases n
  {
    hide Advance;
    if n > 0 {
      ReadsKeepTheRest(b, ids, n - 1);
    }
  }

  // ---------------------------------------------------------------------- what is written

  /** A command of a pose. */
  predicate Carries(c: JointCommand, pose: Pose, speed: u16, acceleration: u8) {
    && c.servoId in pose && c.positionTicks == pose[c.servoId]
    && c.speedTicks == speed && c.acceleration == acceleration
  }

  /** The commands of a pose, one for every servo with an id below `n`, in ascending order. */
  ghost predicate Lists(commands: seq<JointCommand>, pose: Pose, speed: u16, acceleration: u8, n: nat) {
    && (forall k :: 0 <= k < |commands| ==> Carries(commands[k], pose, speed, acceleration) && commands[k].servoId < n)
    && (forall j, k :: 0 <= j < k < |commands| ==> commands[j].servoId < commands[k].servoId)
    && (forall id :: id in pose && id < n ==> exists k :: 0 <= k < |commands| && commands[k].servoId == id)
  }

  lemma {:induction false} CommandsMean(pose: Pose, speed: u16, acceleration: u8, n: nat)
    requires n <= 256
    ensures Lists(CommandsBelow(pose, speed, acceleration, n), pose, speed, acceleration, n)
    decreases n
  {
    hide Carries, Lists;
    if n == 0 {
      NothingListed(pose, speed, acceleration);
    } else {
      CommandsMean(pose, speed, acceleration, n - 1);
      var before := CommandsBelow(pose, speed, acceleration, n - 1);
      if n - 1 in pose {
        OneCommandMore(before, pose, speed, acceleration, n - 1);
      } else {
        NoCommandMore(before, pose, speed, acceleration, n - 1);
      }
    }
  }

  lemma NothingListed(pose: Pose, speed: u16, acceleration: u8)
    ensures Lists([], pose, speed, acceleration, 0)
  {
  }

  lemma NoCommandMore(before: seq<JointCommand>, pose: Pose, speed: u16, acceleration: u8, id: u8)
    requires id !in pose && Lists(before, pose, speed, acceleration, id)
    ensures Lists(before, pose, speed, acceleration, id + 1)
  {
  }

  lemma OneCommandMore(before: seq<JointCommand>, pose: Pose, speed: u16, acceleration: u8, id: u8)
    requires id in pose && Lists(before, pose, speed, acceleration, id)
    ensures Lists(before + [JointCommand(id, pose[id], speed, acceleration)], pose, speed, acceleration, id + 1)
  {
    var commands := before + [JointCommand(id, pose[id], speed, acceleration)];
    forall i | i in pose && i <= id
      ensures exists k :: 0 <= k < |commands| && commands[k].servoId == i
    {
      if i < id {
        var k :| 0 <= k < |before| && before[k].servoId == i;
        assert commands[k].servoId == i;
      } else {
        assert commands[|before|].servoId == i;
      }
    }
  }

  /** A step of the controller writes one command for every servo of the stand pose, in ascending
      order of their ids, at speed 200 with acceleration 10; taking hold of the servos writes
      them, where they then are, at speed and acceleration 0. */
  lemma StandIsWritten(b: Bus, stand: Pose)
    ensures Lists(StepStand(b, stand).0.lastCommands, stand, 200, 10, 256)
    ensures var (after, r) := ReadAll(b, b.ids, |b.ids|);
            r.Ok? ==> Lists(SyncCurrentPose(b, b.ids).0.lastCommands, PoseOf(r.value), 0, 0, 256)
  {
    hide CommandsBelow, Lists, Written, ReadAll, PoseOf;
    CommandsMean(stand, STAND_SPEED, STAND_ACCELERATION, 256);
    var b1 := SyncWrite(b, CommandsOf(stand, STAND_SPEED, STAND_ACCELERATION)).0;
    ReadsKeepCommands(b1, b1.ids, |b1.ids|);
    var r := ReadAll(b, b.ids, |b.ids|).1;
    if r.Ok? {
      CommandsMean(PoseOf(r.value), 0, 0, 256);
    }
  }

  lemma {:induction false} ReadsKeepCommands(b: Bus, ids: seq<u8>, n: nat)
    requires n <= |ids|
    ensures ReadAll(b, ids, n).0.lastCommands == b.lastCommands
    decreases n
  {
    if n > 0 {
      ReadsKeepCommands(b, ids, n - 1);
    }
  }
}
