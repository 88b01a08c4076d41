/** The simulated servo bus: servos that step towards their targets whenever they are written
    or read. The class updates its servos in place and is proved to follow functions on the
    value `Bus`. */
module SimBus {
  import opened Results
  import opened Words
  import opened Ticks

  datatype Servo = Servo(present: u16, target: u16, speed: u16, moving: bool)

  datatype Feedback = Feedback(
    servoId: u8, positionTicks: u16, speedTicks: i16, currentMa: u16, moving: bool)

  datatype HalError = NotConfigured(servoId: u8)

  datatype Bus = Bus(
    ids: seq<u8>, maxStepTicks: u16, servos: map<u8, Servo>, torqueEnabled: bool,
    lastCommands: seq<JointCommand>)

  // ----------------------------------------------------------------------- one servo

  function Limit(x: int, bound: nat): int {
    if x < 0 - bound then 0 - bound else if x > bound then bound else x
  }

  /** A cast to `i16`, which wraps. */
  function WrapI16(x: int): i16 {
    var y := x % 0x1_0000;
    if y >= 0x8000 then y - 0x1_0000 else y
  }

  function StepLimit(speed: u16, maxStepTicks: u16): nat {
    var configured := if speed < 1 then 1 else speed;
    if configured < maxStepTicks then configured else maxStepTicks
  }

  /** One step towards the target, and how far it went. */
  function Advance(s: Servo, maxStepTicks: u16): (Servo, i16) {
    var delta := s.target - s.present;
    if delta == 0 then (s.(moving := false), 0)
    else
      var step := WrapI16(Limit(delta, StepLimit(s.speed, maxStepTicks)));
      var present := ClampTick(s.present + step);
      (s.(present := present, moving := present != s.target), step)
  }

  /** A servo that takes a command, and with it its first step. */
  function Commanded(s: Servo, c: JointCommand, maxStepTicks: u16): Servo {
    Advance(Servo(s.present, c.positionTicks, c.speedTicks, s.present != c.positionTicks), maxStepTicks).0
  }

  // ------------------------------------------------------------------------- the bus

  /** The servos after the first `n` commands, and the first unknown servo, if one stopped the
      write; commands before it keep their effect. */
  function Written(servos: map<u8, Servo>, maxStepTicks: u16, commands: seq<JointCommand>, n: nat)
    : (map<u8, Servo>, Result<(), HalError>)
    requires n <= |commands|
  {
    if n == 0 then (servos, Ok(()))
    else
      var (so, r) := Written(servos, maxStepTicks, commands, n - 1);
      var c := commands[n - 1];
      if r.Err? then (so, r)
      else if c.servoId !in so then (so, Err(NotConfigured(c.servoId)))
      else (so[c.servoId := Commanded(so[c.servoId], c, maxStepTicks)], Ok(()))
  }

  function SyncWrite(b: Bus, commands: seq<JointCommand>): (Bus, Result<(), HalError>) {
    var (servos, r) := Written(b.servos, b.maxStepTicks, commands, |commands|);
    (b.(servos := servos, lastCommands := commands), r)
  }

  /** The current a step draws, in milliamperes, before it is put into 16 bits. */
  function CurrentDraw(torqueEnabled: bool, step: i16): nat {
    120 + Magnitude(step) * (if torqueEnabled then 90 else 0)
  }

  function FeedbackOf(id: u8, s: Servo, step: i16, torqueEnabled: bool): Feedback {
    Feedback(id, s.present, step, CurrentDraw(torqueEnabled, step) % 0x1_0000, s.moving)
  }

  function Read(b: Bus, id: u8): (Bus, Result<Feedback, HalError>) {
    if id !in b.servos then (b, Err(NotConfigured(id)))
    else
      var (s, step) := Advance(b.servos[id], b.maxStepTicks);
      (b.(servos := b.servos[id := s]), Ok(FeedbackOf(id, s, step, b.torqueEnabled)))
  }

  class SimServoBus {
    const ids: seq<u8>
    const maxStepTicks: u16
    var servos: map<u8, Servo>
    var torqueEnabled: bool
    var lastCommands: seq<JointCommand>

    ghost function Value(): Bus
      reads this
    {
      Bus(ids, maxStepTicks, servos, torqueEnabled, lastCommands)
    }

    /** Every servo starts at rest at its seed position. */
    constructor (ids: seq<u8>, seed: Pose, maxStepTicks: u16)
      requires forall id :: id in ids ==> id in seed
      ensures Value() == Bus(ids, if maxStepTicks < 1 then 1 else maxStepTicks,
                             map id | id in ids :: Servo(seed[id], seed[id], 0, false), false, [])
    {
      this.ids := ids;
      this.maxStepTicks := if maxStepTicks < 1 then 1 else maxStepTicks;
      servos := map id | id in ids :: Servo(seed[id], seed[id], 0, false);
      torqueEnabled := false;
      lastCommands := [];
    }

    method AdvanceServo(id: u8) returns (step: i16)
      requires id in servos
      modifies this`servos
      ensures servos == old(servos)[id := Advance(old(servos)[id], maxStepTicks).0]
      ensures step == Advance(old(servos)[id], maxStepTicks).1
    {
      var s := servos[id];
      var delta := s.target - s.present;
      if delta == 0 {
        servos := servos[id := s.(moving := false)];
        return 0;
      }
      step := WrapI16(Limit(delta, StepLimit(s.speed, maxStepTicks)));
      var present := ClampTick(s.present + step);
      servos := servos[id := s.(present := present, moving := present != s.target)];
    }

    method SetTorque(enabled: bool)
      modifies this`torqueEnabled
      ensures Value() == old(Value()).(torqueEnabled := enabled)
    {
      torqueEnabled := enabled;
    }

    method SyncWritePositions(commands: seq<JointCommand>) returns (r: Result<(), HalError>)
      modifies this`servos, this`lastCommands
      ensures (Value(), r) == SyncWrite(old(Value()), commands)
    {
      lastCommands := commands;
      for i := 0 to |commands|
        invariant lastCommands == commands
        invariant (servos, Ok(())) == Written(old(servos), maxStepTicks, commands, i)
      {
        var c := commands[i];
        if c.servoId !in servos {
          WriteStops(old(servos), maxStepTicks, commands, i, |commands|);
          return Err(NotConfigured(c.servoId));
        }
        var s := servos[c.servoId];
        ghost var before := servos;
        servos := servos[c.servoId := Servo(s.present, c.positionTicks, c.speedTicks, s.present != c.positionTicks)];
        var step := AdvanceServo(c.servoId);
        assert servos == before[c.servoId := Commanded(s, c, maxStepTicks)];
      }
      return Ok(());
    }

    method ReadFeedback(id: u8) returns (r: Result<Feedback, HalError>)
      modifies this`servos
      ensures (Value(), r) == Read(old(Value()), id)
    {
      if id !in servos {
        return Err(NotConfigured(id));
      }
      var step := AdvanceServo(id);
      return Ok(FeedbackOf(id, servos[id], step, torqueEnabled));
    }
  }

  /** Nothing after an unknown servo is written. */
  lemma {:induction false} WriteStops(servos: map<u8, Servo>, maxStepTicks: u16, commands: seq<JointCommand>, i: nat,
                                      n: nat)
    requires i < n <= |commands|
    requires Written(servos, maxStepTicks, commands, i).1.Ok?
    requires commands[i].servoId !in Written(servos, maxStepTicks, commands, i).0
    ensures Written(servos, maxStepTicks, commands, n)
         == (Written(servos, maxStepTicks, commands, i).0, Err(NotConfigured(commands[i].servoId)))
    decreases n
  {
    if i < n - 1 {
      WriteStops(servos, maxStepTicks, commands, i, n - 1);
    }
  }

  // ------------------------------------------------------------------ what a step does

  predicate InRange(s: Servo) { s.present <= MAX_TICK && s.target <= MAX_TICK }

  /** Within the tick range a step goes towards the target by the limit, or arrives; it never
      overshoots, and the servo reports motion exactly while it has not arrived. */
  lemma StepTowards(s: Servo, maxStepTicks: u16)
    requires InRange(s)
    ensures var (after, step) := Advance(s, maxStepTicks);
            && after.present == s.present + Limit(s.target - s.present, StepLimit(s.speed, maxStepTicks))
            && after.target == s.target && after.speed == s.speed && InRange(after)
            && (after.moving <==> after.present != after.target)
            && Magnitude(step) <= StepLimit(s.speed, maxStepTicks)
            && step == after.present - s.present
  {
  }

  /** The longest step: the commanded speed, at least one tick, and at most the bus's limit. */
  lemma StepLimitIs(speed: u16, maxStepTicks: u16)
    ensures var n := StepLimit(speed, maxStepTicks);
            && (speed >= 1 && speed <= maxStepTicks ==> n == speed) && (speed > maxStepTicks ==> n == maxStepTicks)
            && (speed == 0 && maxStepTicks >= 1 ==> n == 1)
  {
  }

  /** A servo draws 120 mA, and with torque 90 more for each tick of its step. */
  lemma CurrentIs(torqueEnabled: bool, step: i16)
    ensures CurrentDraw(torqueEnabled, step)
         == 120 + if !torqueEnabled then 0 else if step < 0 then -90 * step else 90 * step
  {
  }

  /** Two limited steps are one step of twice the limit. */
  lemma LimitsAdd(delta: int, m: nat, n: nat)
    ensures Limit(delta, m) + Limit(delta - Limit(delta, m), n) == Limit(delta, m + n)
  {
  }

  /** The current of a step fits its 16 bits exactly when the torque is off or the step is at
      most 726 ticks. */
  lemma CurrentFits(torqueEnabled: bool, step: i16)
    ensures CurrentDraw(torqueEnabled, step) < 0x1_0000 <==> !torqueEnabled || Magnitude(step) <= 726
  {
  }

  /** With steps limited to 726 ticks no reading of a servo within range ever overflows; with a
      larger limit a command exists whose step does. */
  lemma CurrentNeverOverflowsIff(maxStepTicks: u16)
    requires maxStepTicks >= 1
    ensures (forall s: Servo :: InRange(s) ==> CurrentDraw(true, Advance(s, maxStepTicks).1) < 0x1_0000)
        <==> maxStepTicks <= 726
  {
    forall s: Servo | InRange(s) && maxStepTicks <= 726
      ensures CurrentDraw(true, Advance(s, maxStepTicks).1) < 0x1_0000
    {
      StepTowards(s, maxStepTicks);
    }
    if maxStepTicks > 726 {
      var s := Servo(0, 727, 727, true);
      StepTowards(s, maxStepTicks);
      assert InRange(s) && CurrentDraw(true, Advance(s, maxStepTicks).1) == 120 + 727 * 90;
    }
  }
}
