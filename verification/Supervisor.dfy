/** One tick of the control worker: mode switch, bus, torque, poll, arm, safety, commands.

    The hardware's answers and the shared state read during the tick are an `Input`; the tick
    is a function of the worker and its input, and `ControlWorker` is proved to follow it. */
module Supervisor {
  import opened Results
  import opened Words
  import opened ServoPoll
  import opened Motion

  datatype Config = Config(safety: SafetyConfig, ids: seq<u8>, telemetryStride: nat)

  datatype Input = Input(
    pendingMode: Option<BrainMode>,
    imu: Option<ImuState>,
    busOpens: bool,                   // a closed bus can be opened
    torqueEnables: bool,              // enabling torque succeeds
    recordFrame: bool,                // the trajectory log wants a full sweep
    readings: nat -> Reading,         // the answers of this tick's reads, in order
    torqueRestores: bool,             // the configured torque limit can be restored
    manualActionWorks: bool,          // a pending manual utility succeeds
    sendWorks: bool,                  // the sync write succeeds
    goal: Goals,                      // the modes' poses
    fallback: BrainMode -> Pose,      // the configured fallback pose of each mode
    now: real,                        // the clock where the tick may arm
    later: real)                      // the clock where it chooses its command

  datatype Worker = Worker(
    motion: Motion, busOpen: bool, torqueEnabled: bool, cursor: nat, states: ServoStates)

  /** A worker part-way through a tick, which may have ended early. */
  datatype Flow = Go(worker: Worker) | Stop(worker: Worker)

  function FlowOf(go: bool, w: Worker): Flow { if go then Go(w) else Stop(w) }

  /** The worker after a tick, the pose handed to the sync write, and the pose at which the
      tick armed the motion. */
  datatype Ticked = Ticked(worker: Worker, sent: Option<Pose>, armed: Option<Pose>)

  predicate Configured(c: Config) {
    c.ids != [] && Distinct(c.ids)
  }

  function CurrentPose(ids: seq<u8>, states: ServoStates): Option<Pose> {
    if forall id :: id in ids ==> TelemetryOf(states, id).Some? then
      Some(map id | id in ids :: TelemetryOf(states, id).value.positionTicks)
    else None
  }

  // ------------------------------------------------------------------------ the stages

  predicate Switches(w: Worker, i: Input) {
    i.pendingMode.Some? && i.pendingMode.value != w.motion.mode
  }

  function SwitchMode(w: Worker, i: Input): Worker {
    if Switches(w, i) then
      w.(motion := New(i.pendingMode.value),
         torqueEnabled := w.torqueEnabled && i.pendingMode.value.RequiresTorque())
    else w
  }

  function OpenBus(w: Worker, i: Input): Flow {
    if w.busOpen then Go(w)
    else if i.busOpens then
      Go(w.(busOpen := true, torqueEnabled := false,
            motion := if w.motion.mode.RequiresTorque() then Disarm(w.motion) else w.motion))
    else Stop(w.(motion := Disarm(w.motion)))
  }

  function EnableTorque(w: Worker, i: Input): Flow {
    if !w.motion.mode.RequiresTorque() || w.torqueEnabled then Go(w)
    else if i.torqueEnables then Go(w.(torqueEnabled := true))
    else Stop(w.(motion := Disarm(w.motion), busOpen := false))
  }

  function ReadBudget(c: Config, w: Worker, i: Input): nat {
    if i.recordFrame || w.motion.mode == Telemetry_ || w.motion.armedAt.None? then |c.ids|
    else if c.telemetryStride < 1 then 1
    else if c.telemetryStride > |c.ids| then |c.ids|
    else c.telemetryStride
  }

  /** Trips a fault at the current pose and gives up the bus. */
  function DropBus(c: Config, w: Worker, reason: FaultReason): Worker {
    w.(motion := TripFault(w.motion, reason, CurrentPose(c.ids, w.states)),
       busOpen := false, torqueEnabled := false)
  }

  function Poll(c: Config, w: Worker, i: Input): Flow
    requires w.cursor < |c.ids|
  {
    var budget := Budgeted(ReadBudget(c, w, i));
    var polled := w.(states := Polled(c.ids, w.states, w.cursor, i.readings, budget),
                     cursor := Advance(w.cursor, |c.ids|, budget));
    if WantsReopen(i.readings, budget) then Stop(DropBus(c, polled, LinkDropped)) else Go(polled)
  }

  /** The pose at which this stage arms, if it does. */
  function ArmingPose(c: Config, w: Worker, i: Input): Option<Pose> {
    if w.motion.mode.RequiresTorque() && w.motion.armedAt.None? && i.torqueRestores
    then CurrentPose(c.ids, w.states)
    else None
  }

  function ArmMotion(c: Config, w: Worker, i: Input): Worker {
    if !w.motion.mode.RequiresTorque() || w.motion.armedAt.Some? then w
    else match CurrentPose(c.ids, w.states)
         case None => w
         case Some(pose) =>
           w.(motion := if i.torqueRestores then Arm(w.motion, pose, i.now) else Disarm(w.motion))
  }

  function Guard(c: Config, w: Worker, i: Input): Worker {
    if !w.motion.mode.RequiresTorque() || w.motion.fault.Some? then w
    else
      var (m, reason) := CheckSafety(w.motion, c.safety, c.ids, w.states, i.imu);
      w.(motion := if reason.Some? then TripFault(m, reason.value, CurrentPose(c.ids, w.states)) else m)
  }

  function ManualAction(c: Config, w: Worker, i: Input): Flow {
    if w.motion.mode == Manual && w.motion.fault.None? && !i.manualActionWorks
    then Stop(DropBus(c, w, ManualUtilityFailed))
    else Go(w)
  }

  function Send(c: Config, w: Worker, i: Input): (Worker, Option<Pose>) {
    var (m, commands) := Commands(w.motion, i.goal, i.fallback(w.motion.mode), i.later);
    var sent := w.(motion := m);
    (if commands.Some? && !i.sendWorks then DropBus(c, sent, SendFailed) else sent, commands)
  }

  /** The first half of a tick: until telemetry is fresh. */
  function Prepare(c: Config, w: Worker, i: Input): Flow
    requires w.cursor < |c.ids|
  {
    match OpenBus(SwitchMode(w, i), i)
    case Stop(w1) => Stop(w1)
    case Go(w1) =>
      match EnableTorque(w1, i)
      case Stop(w2) => Stop(w2)
      case Go(w2) => Poll(c, w2, i)
  }

  /** The second half: supervise and command. */
  function Act(c: Config, w: Worker, i: Input): Ticked {
    match ManualAction(c, Guard(c, ArmMotion(c, w, i), i), i)
    case Stop(w1) => Ticked(w1, None, ArmingPose(c, w, i))
    case Go(w1) =>
      var (w2, sent) := Send(c, w1, i);
      Ticked(w2, sent, ArmingPose(c, w, i))
  }

  function Tick(c: Config, w: Worker, i: Input): Ticked
    requires w.cursor < |c.ids|
  {
    match Prepare(c, w, i)
    case Stop(w1) => Ticked(w1, None, None)
    case Go(w1) => Act(c, w1, i)
  }

  // ------------------------------------------------------------------------- the worker

  class ControlWorker {
    const c: Config
    var motion: MotionRuntime
    var busOpen: bool
    var torqueEnabled: bool
    var cursor: nat
    var states: ServoStates

    ghost function Value(): Worker
      reads this, motion
    {
      Worker(motion.Value(), busOpen, torqueEnabled, cursor, states)
    }

    constructor (c: Config, mode: BrainMode)
      requires Configured(c)
      ensures this.c == c && fresh(motion)
      ensures Value() == Initial(c, mode)
    {
      this.c := c;
      motion := new MotionRuntime(mode);
      busOpen, torqueEnabled, cursor := false, false, 0;
      states := map id | id in c.ids :: None;
    }

    /** `current_pose`: gives up at the first servo without telemetry. */
    method ReadCurrentPose() returns (pose: Option<Pose>)
      ensures pose == CurrentPose(c.ids, states)
    {
      var found: Pose := map[];
      for i := 0 to |c.ids|
        invariant forall j :: 0 <= j < i ==> TelemetryOf(states, c.ids[j]).Some?
        invariant found == map id | id in c.ids[..i] :: TelemetryOf(states, id).value.positionTicks
      {
        var known := TelemetryOf(states, c.ids[i]);
        if known.None? {
          assert c.ids[i] in c.ids;
          return None;
        }
        found := found[c.ids[i] := known.value.positionTicks];
      }
      assert c.ids[..|c.ids|] == c.ids;
      return Some(found);
    }

    method GiveUpBus(reason: FaultReason)
      modifies this`busOpen, this`torqueEnabled, motion
      ensures Value() == DropBus(c, old(Value()), reason)
    {
      var pose := ReadCurrentPose();
      motion.Trip(reason, pose);
      busOpen := false;
      torqueEnabled := false;
    }

    method SwitchStage(i: Input)
      modifies this`motion, this`torqueEnabled
      ensures motion == old(motion) || fresh(motion)
      ensures Value() == SwitchMode(old(Value()), i)
    {
      if i.pendingMode.Some? && i.pendingMode.value != motion.mode {
        motion := new MotionRuntime(i.pendingMode.value);
        if !motion.mode.RequiresTorque() && torqueEnabled {
          torqueEnabled := false;
        }
      }
    }

    method OpenStage(i: Input) returns (go: bool)
      modifies this`busOpen, this`torqueEnabled, motion
      ensures FlowOf(go, Value()) == OpenBus(old(Value()), i)
    {
      if busOpen {
        return true;
      }
      if !i.busOpens {
        motion.DisarmNow();
        return false;
      }
      busOpen := true;
      torqueEnabled := false;
      if motion.mode.RequiresTorque() {
        motion.DisarmNow();
      }
      return true;
    }

    method TorqueStage(i: Input) returns (go: bool)
      modifies this`busOpen, this`torqueEnabled, motion
      ensures FlowOf(go, Value()) == EnableTorque(old(Value()), i)
    {
      if motion.mode.RequiresTorque() && !torqueEnabled {
        if !i.torqueEnables {
          motion.DisarmNow();
          busOpen := false;
          return false;
        }
        torqueEnabled := true;
      }
      return true;
    }

    method PollStage(i: Input) returns (go: bool)
      requires cursor < |c.ids|
      modifies this`states, this`cursor, this`busOpen, this`torqueEnabled, motion
      ensures FlowOf(go, Value()) == Poll(c, old(Value()), i)
    {
      var budget := if i.recordFrame || motion.mode == Telemetry_ || motion.armedAt.None? then |c.ids|
                    else if c.telemetryStride < 1 then 1
                    else if c.telemetryStride > |c.ids| then |c.ids|
                    else c.telemetryStride;
      var reopen;
      states, cursor, reopen := PollServoWindow(c.ids, states, cursor, budget, i.readings);
      if reopen {
        GiveUpBus(LinkDropped);
        return false;
      }
      return true;
    }

    method PrepareTick(i: Input) returns (go: bool)
      requires cursor < |c.ids|
      modifies this, motion
      ensures motion == old(motion) || fresh(motion)
      ensures FlowOf(go, Value()) == Prepare(c, old(Value()), i)
    {
      SwitchStage(i);
      go := OpenStage(i);
      if !go {
        return;
      }
      go := TorqueStage(i);
      if !go {
        return;
      }
      go := PollStage(i);
    }

    method ArmStage(i: Input)
      modifies motion
      ensures Value() == ArmMotion(c, old(Value()), i)
    {
      if !motion.mode.RequiresTorque() || motion.armedAt.Some? {
        return;
      }
      var pose := ReadCurrentPose();
      if pose.None? {
        return;
      }
      if i.torqueRestores {
        motion.ArmAt(pose.value, i.now);
      } else {
        motion.DisarmNow();
      }
    }

    method GuardStage(i: Input)
      modifies motion
      ensures Value() == Guard(c, old(Value()), i)
    {
      if motion.mode.RequiresTorque() && motion.fault.None? {
        var reason := motion.Check(c.safety, c.ids, states, i.imu);
        if reason.Some? {
          var pose := ReadCurrentPose();
          motion.Trip(reason.value, pose);
        }
      }
    }

    method ManualStage(i: Input) returns (go: bool)
      modifies this`busOpen, this`torqueEnabled, motion
      ensures FlowOf(go, Value()) == ManualAction(c, old(Value()), i)
    {
      if motion.mode == Manual && motion.fault.None? && !i.manualActionWorks {
        GiveUpBus(ManualUtilityFailed);
        return false;
      }
      return true;
    }

    method SendStage(i: Input) returns (sent: Option<Pose>)
      modifies this`busOpen, this`torqueEnabled, motion
      ensures (Value(), sent) == Send(c, old(Value()), i)
    {
      sent := motion.NextCommands(i.goal, i.fallback(motion.mode), i.later);
      if sent.Some? && !i.sendWorks {
        GiveUpBus(SendFailed);
      }
    }

    method ActTick(i: Input) returns (sent: Option<Pose>, ghost armed: Option<Pose>)
      modifies this`busOpen, this`torqueEnabled, motion
      ensures Ticked(Value(), sent, armed) == Act(c, old(Value()), i)
    {
      armed := ArmingPose(c, Value(), i);
      ArmStage(i);
      GuardStage(i);
      var go := ManualStage(i);
      if !go {
        return None, armed;
      }
      sent := SendStage(i);
    }

    method TickOnce(i: Input) returns (sent: Option<Pose>, ghost armed: Option<Pose>)
      requires cursor < |c.ids|
      modifies this, motion
      ensures (motion == old(motion) || fresh(motion))
      ensures Ticked(Value(), sent, armed) == Tick(c, old(Value()), i)
    {
      var go := PrepareTick(i);
      if !go {
        return None, None;
      }
      sent, armed := ActTick(i);
    }
  }

  function Initial(c: Config, mode: BrainMode): Worker {
    Worker(New(mode), false, false, 0, map id | id in c.ids :: None)
  }
}
