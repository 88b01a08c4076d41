/** What every run of the control worker keeps. */
module SupervisorRuns {
  import opened Results
  import opened Words
  import opened ServoPoll
  import opened Motion
  import opened Supervisor

  function IdSet(c: Config): set<u8> {
    set id | id in c.ids
  }

  ghost predicate Inv(c: Config, w: Worker) {
    var m := w.motion;
    && w.cursor < |c.ids|
    && (m.armedAt.Some? <==> m.initialPose.Some?)
    && (m.initialPose.Some? ==> m.initialPose.value.Keys == IdSet(c) && m.holdPose.Some?)
    && (m.mode == Telemetry_ ==> m.armedAt.None?)
    && (w.torqueEnabled ==> w.busOpen)
    && (m.armedAt.Some? && m.fault.None? ==> w.busOpen && w.torqueEnabled)
  }

  /** What holds of a worker that has got as far as acting. */
  ghost predicate Ready(c: Config, w: Worker) {
    Inv(c, w) && w.busOpen && (w.motion.mode.RequiresTorque() ==> w.torqueEnabled)
  }

  lemma InitialInv(c: Config, mode: BrainMode)
    requires Configured(c)
    ensures Inv(c, Initial(c, mode))
  {
  }

  lemma OpenAndTorqueKeep(c: Config, w: Worker, i: Input)
    requires Inv(c, w)
    ensures Inv(c, SwitchMode(w, i))
    ensures Inv(c, OpenBus(w, i).worker)
    ensures OpenBus(w, i).Go? ==> OpenBus(w, i).worker.busOpen
    ensures w.busOpen ==> Inv(c, EnableTorque(w, i).worker)
    ensures w.busOpen && EnableTorque(w, i).Go? ==> Ready(c, EnableTorque(w, i).worker)
  {
  }

  lemma PollKeeps(c: Config, w: Worker, i: Input)
    requires Ready(c, w)
    ensures Inv(c, Poll(c, w, i).worker)
    ensures Poll(c, w, i).Go? ==> Ready(c, Poll(c, w, i).worker)
  {
    AdvanceInRange(w.cursor, |c.ids|, Budgeted(ReadBudget(c, w, i)));
  }

  lemma PrepareKeeps(c: Config, w: Worker, i: Input)
    requires Inv(c, w)
    ensures Inv(c, Prepare(c, w, i).worker)
    ensures Prepare(c, w, i).Go? ==> Ready(c, Prepare(c, w, i).worker)
  {
    var w0 := SwitchMode(w, i);
    OpenAndTorqueKeep(c, w, i);
    OpenAndTorqueKeep(c, w0, i);
    var w1 := OpenBus(w0, i).worker;
    OpenAndTorqueKeep(c, w1, i);
    if OpenBus(w0, i).Go? && EnableTorque(w1, i).Go? {
      PollKeeps(c, EnableTorque(w1, i).worker, i);
    }
  }

  /** A safety check moves only the counters. */
  lemma CheckMovesCounters(m: Motion, c: Config, states: ServoStates, imu: Option<ImuState>)
    ensures var after := CheckSafety(m, c.safety, c.ids, states, imu).0;
            after == m.(bodyAttitudeStrikes := after.bodyAttitudeStrikes,
                        lowVoltageStrikes := after.lowVoltageStrikes)
  {
  }

  lemma ArmAndGuardKeep(c: Config, w: Worker, i: Input)
    requires Ready(c, w)
    ensures Ready(c, ArmMotion(c, w, i))
    ensures Ready(c, Guard(c, w, i))
  {
    CheckMovesCounters(w.motion, c, w.states, i.imu);
  }

  lemma SendKeeps(c: Config, w: Worker, i: Input)
    requires Ready(c, w)
    ensures Inv(c, ManualAction(c, w, i).worker)
    ensures Inv(c, Send(c, w, i).0)
  {
  }

  lemma TickKeeps(c: Config, w: Worker, i: Input)
    requires Inv(c, w)
    ensures Inv(c, Tick(c, w, i).worker)
  {
    PrepareKeeps(c, w, i);
    if Prepare(c, w, i).Go? {
      var w1 := Prepare(c, w, i).worker;
      ArmAndGuardKeep(c, w1, i);
      ArmAndGuardKeep(c, ArmMotion(c, w1, i), i);
      SendKeeps(c, Guard(c, ArmMotion(c, w1, i), i), i);
    }
  }

  // --------------------------------------------------------------------------------- runs

  /** The ticks of a run, in order. */
  ghost function Run(c: Config, w: Worker, inputs: seq<Input>): (ticks: seq<Ticked>)
    requires Inv(c, w)
    ensures |ticks| == |inputs|
    ensures forall k :: 0 <= k < |ticks| ==> Inv(c, ticks[k].worker)
    decreases |inputs|
  {
    if inputs == [] then []
    else
      TickKeeps(c, w, inputs[0]);
      var t := Tick(c, w, inputs[0]);
      [t] + Run(c, t.worker, inputs[1..])
  }

  /** The worker that tick `k` of a run starts from. */
  ghost function Before(c: Config, w: Worker, inputs: seq<Input>, k: nat): Worker
    requires Inv(c, w) && k <= |inputs|
  {
    if k == 0 then w else Run(c, w, inputs)[k - 1].worker
  }

  lemma {:induction false} RunStep(c: Config, w: Worker, inputs: seq<Input>, k: nat)
    requires Inv(c, w) && k < |inputs|
    ensures Inv(c, Before(c, w, inputs, k))
    ensures Run(c, w, inputs)[k] == Tick(c, Before(c, w, inputs, k), inputs[k])
    decreases k
  {
    if k > 0 {
      TickKeeps(c, w, inputs[0]);
      RunStep(c, Tick(c, w, inputs[0]).worker, inputs[1..], k - 1);
    }
  }

  lemma BeforeNext(c: Config, w: Worker, inputs: seq<Input>, k: nat)
    requires Inv(c, w) && k < |inputs|
    ensures Inv(c, Before(c, w, inputs, k)) && Before(c, w, inputs, k).cursor < |c.ids|
    ensures Before(c, w, inputs, k + 1) == Tick(c, Before(c, w, inputs, k), inputs[k]).worker
  {
    RunStep(c, w, inputs, k);
    hide Tick, Run;
  }

  /** In every run, whenever the motion is armed its initial pose covers exactly the
      configured servos; an armed, unfaulted motion has its bus open with torque on; and the
      poller's cursor stays in range. */
  lemma ArmedCoversServos(c: Config, mode: BrainMode, inputs: seq<Input>, k: nat)
    requires Configured(c) && k < |inputs|
    ensures Inv(c, Initial(c, mode))
    ensures var w := Run(c, Initial(c, mode), inputs)[k].worker;
            && w.cursor < |c.ids|
            && (w.motion.armedAt.Some? ==>
                  w.motion.initialPose.Some? && w.motion.initialPose.value.Keys == IdSet(c))
            && (w.motion.armedAt.Some? && w.motion.fault.None? ==> w.busOpen && w.torqueEnabled)
  {
    InitialInv(c, mode);
  }

  // ------------------------------------------------------------------- no silent motion

  /** A command goes out only in a mode that drives the servos, and only when the motion is
      armed or a fault was already latched when the command was chosen. */
  lemma SendNeedsArmedOrFault(c: Config, w: Worker, i: Input)
    ensures Send(c, w, i).1.Some? <==>
              w.motion.mode != Telemetry_ && (w.motion.armedAt.Some? || w.motion.fault.Some?)
  {
  }

  /** The tick of an unarmed, unfaulted motion that neither arms nor trips sends nothing; and
      whatever a tick sends, it sends in a torque mode, armed or faulted. */
  lemma UnarmedIsSilent(c: Config, w: Worker, i: Input)
    requires Inv(c, w)
    ensures var t := Tick(c, w, i);
            && (t.worker.motion.armedAt.None? && t.worker.motion.fault.None? ==> t.sent.None?)
            && (t.sent.Some? ==> t.worker.motion.mode != Telemetry_)
  {
    if Prepare(c, w, i).Go? {
      var w1 := Guard(c, ArmMotion(c, Prepare(c, w, i).worker, i), i);
      SendNeedsArmedOrFault(c, w1, i);
      SendKeepsArming(c, w1, i);
    }
  }

  lemma SendKeepsArming(c: Config, w: Worker, i: Input)
    ensures var v := Send(c, w, i).0;
            && v.motion.mode == w.motion.mode && v.motion.armedAt == w.motion.armedAt
            && (w.motion.fault.Some? ==> v.motion.fault.Some?)
  {
  }

  // ------------------------------------------------------------------------ latched faults

  /** Up to acting, a tick without a mode switch keeps the mode, leaves a latched fault alone,
      raises none when it goes on, and never touches the pose held under a latched fault. */
  lemma PrepareFault(c: Config, w: Worker, i: Input)
    requires Inv(c, w)
    ensures var (m, p) := (w.motion, Prepare(c, w, i).worker.motion);
            && (!Switches(w, i) ==> p.mode == m.mode)
            && (!Switches(w, i) && m.fault.Some? ==> p.fault == m.fault && p.holdPose == m.holdPose)
            && (Prepare(c, w, i).Go? && (Switches(w, i) || m.fault.None?) ==> p.fault.None?)
  {
  }

  /** The same stage by stage, from a worker that is about to act. */
  lemma ArmUnderFault(c: Config, w: Worker, i: Input)
    requires w.motion.fault.Some?
    ensures var (m, a) := (ArmMotion(c, w, i).motion, ArmingPose(c, w, i));
            && m.mode == w.motion.mode && m.fault == w.motion.fault
            && m.holdPose == if a.Some? then a else w.motion.holdPose
  {
  }

  lemma SendUnderFault(c: Config, w: Worker, i: Input)
    requires Inv(c, w) && w.motion.fault.Some?
    ensures var (v, sent) := Send(c, w, i);
            && v.motion.mode == w.motion.mode && v.motion.fault == w.motion.fault
            && (w.motion.holdPose.Some? ==>
                  v.motion.holdPose == w.motion.holdPose && (sent.None? || sent == w.motion.holdPose))
            && (w.motion.holdPose.None? ==>
                  v.motion.holdPose == sent
                  && (sent.None? || sent == Some(i.fallback(w.motion.mode))))
  {
  }

  lemma ActUnderFault(c: Config, w: Worker, i: Input)
    requires Ready(c, w) && w.motion.fault.Some?
    ensures var v := ArmMotion(c, w, i);
            Act(c, w, i) == Ticked(Send(c, v, i).0, Send(c, v, i).1, ArmingPose(c, w, i))
    ensures Inv(c, ArmMotion(c, w, i)) && ArmMotion(c, w, i).motion.fault.Some?
  {
    ArmUnderFault(c, w, i);
    ArmAndGuardKeep(c, w, i);
    var v := ArmMotion(c, w, i);
    assert Guard(c, v, i) == v;
    assert ManualAction(c, v, i) == Go(v);
  }

  /** One tick under a latched fault, without a switch to a different mode: the fault stays;
      what is sent is the pose of a re-arm in this very tick or else the held pose; a fault
      that holds no pose yet sends, and from then on holds, the mode's fallback pose. */
  lemma TickUnderFault(c: Config, w: Worker, i: Input)
    requires Inv(c, w) && w.motion.fault.Some? && !Switches(w, i)
    ensures var (m, t) := (w.motion, Tick(c, w, i));
            var held := if t.armed.Some? then t.armed else m.holdPose;
            && t.worker.motion.mode == m.mode
            && t.worker.motion.fault == m.fault
            && (held.Some? ==> t.worker.motion.holdPose == held && (t.sent.None? || t.sent == held))
            && (held.None? ==> t.worker.motion.holdPose == t.sent
                               && (t.sent.None? || t.sent == Some(i.fallback(m.mode))))
  {
    PrepareKeeps(c, w, i);
    PrepareFault(c, w, i);
    if Prepare(c, w, i).Go? {
      var w1 := Prepare(c, w, i).worker;
      ArmUnderFault(c, w1, i);
      ActUnderFault(c, w1, i);
      SendUnderFault(c, ArmMotion(c, w1, i), i);
    }
  }

  /** No tick of the run switches to a different mode. */
  ghost predicate NoSwitch(c: Config, w: Worker, inputs: seq<Input>)
    requires Inv(c, w)
  {
    forall k :: 0 <= k < |inputs| ==> !Switches(Before(c, w, inputs, k), inputs[k])
  }

  /** A latched fault is never cleared or changed, whatever pose it holds or does not hold. */
  lemma {:induction false} FaultStaysLatched(c: Config, w: Worker, inputs: seq<Input>, k: nat)
    requires Inv(c, w) && NoSwitch(c, w, inputs) && k <= |inputs|
    requires w.motion.fault.Some?
    ensures Before(c, w, inputs, k).motion.fault == w.motion.fault
    ensures Before(c, w, inputs, k).motion.mode == w.motion.mode
    decreases k
  {
    if k > 0 {
      FaultStaysLatched(c, w, inputs, k - 1);
      RunStep(c, w, inputs, k - 1);
      TickUnderFault(c, Before(c, w, inputs, k - 1), inputs[k - 1]);
    }
  }

  /** The pose held after `k` ticks: that of the latest re-arm, or the one held at the start. */
  ghost function LastArmed(ticks: seq<Ticked>, k: nat, held: Pose): Pose
    requires k <= |ticks|
  {
    if k == 0 then held
    else if ticks[k - 1].armed.Some? then ticks[k - 1].armed.value
    else LastArmed(ticks, k - 1, held)
  }

  /** Over a whole run under a latched fault: the fault is never cleared or changed, and
      every command is the pose of the latest re-arm, or the pose held when the run began. */
  lemma {:induction false} FaultedRun(c: Config, w: Worker, inputs: seq<Input>, k: nat, held: Pose)
    requires Inv(c, w) && NoSwitch(c, w, inputs) && k <= |inputs|
    requires w.motion.fault.Some? && w.motion.holdPose == Some(held)
    ensures var (ticks, m) := (Run(c, w, inputs), Before(c, w, inputs, k).motion);
            && m.fault == w.motion.fault && m.mode == w.motion.mode
            && m.holdPose == Some(LastArmed(ticks, k, held))
            && (k > 0 ==> ticks[k - 1].sent.None?
                          || ticks[k - 1].sent == Some(LastArmed(ticks, k, held)))
    decreases k
  {
    hide Inv, Tick;
    if k > 0 {
      FaultedRun(c, w, inputs, k - 1, held);
      RunStep(c, w, inputs, k - 1);
      TickUnderFault(c, Before(c, w, inputs, k - 1), inputs[k - 1]);
    }
  }

  /** Without re-arms in between, the commands under a latched fault are constant. */
  lemma CommandsConstantUnderFault(c: Config, w: Worker, inputs: seq<Input>, k: nat, held: Pose)
    requires Inv(c, w) && NoSwitch(c, w, inputs) && k < |inputs|
    requires w.motion.fault.Some? && w.motion.holdPose == Some(held)
    requires forall j :: 0 <= j <= k ==> Run(c, w, inputs)[j].armed.None?
    ensures Run(c, w, inputs)[k].sent.None? || Run(c, w, inputs)[k].sent == Some(held)
  {
    FaultedRun(c, w, inputs, k + 1, held);
    NeverArmed(Run(c, w, inputs), k + 1, held);
  }

  lemma {:induction false} NeverArmed(ticks: seq<Ticked>, k: nat, held: Pose)
    requires k <= |ticks|
    requires forall j :: 0 <= j < k ==> ticks[j].armed.None?
    ensures LastArmed(ticks, k, held) == held
    decreases k
  {
    if k > 0 {
      NeverArmed(ticks, k - 1, held);
    }
  }

  /** A fault latched without a pose: until the first command or re-arm nothing is held. */
  lemma {:induction false} FaultedRunWithoutPose(c: Config, w: Worker, inputs: seq<Input>, k: nat)
    requires Inv(c, w) && NoSwitch(c, w, inputs) && k < |inputs|
    requires w.motion.fault.Some? && w.motion.holdPose.None?
    requires forall j :: 0 <= j < k ==>
      Run(c, w, inputs)[j].armed.None? && Run(c, w, inputs)[j].sent.None?
    requires Run(c, w, inputs)[k].armed.None?
    ensures Before(c, w, inputs, k).motion.fault == w.motion.fault
    ensures Before(c, w, inputs, k).motion.mode == w.motion.mode
    ensures Before(c, w, inputs, k).motion.holdPose.None?
    ensures Run(c, w, inputs)[k].sent.None?
         || Run(c, w, inputs)[k].sent == Some(inputs[k].fallback(w.motion.mode))
    decreases k
  {
    if k > 0 {
      FaultedRunWithoutPose(c, w, inputs, k - 1);
      RunStep(c, w, inputs, k - 1);
      TickUnderFault(c, Before(c, w, inputs, k - 1), inputs[k - 1]);
    }
    RunStep(c, w, inputs, k);
    TickUnderFault(c, Before(c, w, inputs, k), inputs[k]);
  }

  /** The pose a stage holds when it trips a fault. */
  ghost predicate TripsAtMeasured(c: Config, w: Worker, v: Worker) {
    w.motion.fault.None? && v.motion.fault.Some? && CurrentPose(c.ids, v.states).Some? ==>
      v.motion.holdPose == CurrentPose(c.ids, v.states)
  }

  lemma PrepareTripsAtMeasured(c: Config, w: Worker, i: Input)
    requires Inv(c, w) && w.motion.fault.None?
    ensures TripsAtMeasured(c, w, Prepare(c, w, i).worker)
  {
  }

  lemma GuardTripsAtMeasured(c: Config, w: Worker, i: Input)
    requires w.motion.fault.None?
    ensures TripsAtMeasured(c, w, Guard(c, w, i))
    ensures Guard(c, w, i).states == w.states
  {
    CheckMovesCounters(w.motion, c, w.states, i.imu);
  }

  lemma SendTripsAtMeasured(c: Config, w: Worker, i: Input)
    requires w.motion.fault.None?
    ensures TripsAtMeasured(c, w, ManualAction(c, w, i).worker)
    ensures TripsAtMeasured(c, w, Send(c, w, i).0)
  {
  }

  lemma ActTripsAtMeasured(c: Config, w: Worker, i: Input)
    requires Ready(c, w) && w.motion.fault.None?
    ensures TripsAtMeasured(c, w, Act(c, w, i).worker)
  {
    var w1 := ArmMotion(c, w, i);
    ArmAndGuardKeep(c, w, i);
    ArmAndGuardKeep(c, w1, i);
    GuardTripsAtMeasured(c, w1, i);
    var w2 := Guard(c, w1, i);
    if w2.motion.fault.Some? {
      assert ManualAction(c, w2, i) == Go(w2);
      SendUnderFault(c, w2, i);
    } else {
      SendTripsAtMeasured(c, w2, i);
    }
  }

  /** When a tick trips a fault and every servo has telemetry, the pose held from then on is
      the measured one. */
  lemma TripHoldsMeasuredPose(c: Config, w: Worker, i: Input)
    requires Inv(c, w) && w.motion.fault.None?
    ensures var t := Tick(c, w, i);
            t.worker.motion.fault.Some? && CurrentPose(c.ids, t.worker.states).Some? ==>
              t.worker.motion.holdPose == CurrentPose(c.ids, t.worker.states)
  {
    PrepareKeeps(c, w, i);
    PrepareFault(c, w, i);
    PrepareTripsAtMeasured(c, w, i);
    if Prepare(c, w, i).Go? {
      ActTripsAtMeasured(c, Prepare(c, w, i).worker, i);
    }
  }

  // -------------------------------------------------- what a tripping tick holds and sends

  lemma PrepareTripPose(c: Config, w: Worker, i: Input)
    requires Inv(c, w) && w.motion.fault.None? && !Switches(w, i)
    ensures var p := Prepare(c, w, i).worker;
            && (p.motion.fault.Some? ==> Prepare(c, w, i).Stop?)
            && p.motion.holdPose == if p.motion.fault.Some? && CurrentPose(c.ids, p.states).Some?
                                    then CurrentPose(c.ids, p.states) else w.motion.holdPose
  {
    hide CurrentPose, Polled, WantsReopen, Advance;
  }

  lemma ArmingHolds(c: Config, w: Worker, i: Input)
    ensures var a := ArmMotion(c, w, i);
            && a.states == w.states && a.motion.mode == w.motion.mode && a.motion.fault == w.motion.fault
            && (CurrentPose(c.ids, w.states).None? ==> a == w)
            && (w.motion.holdPose.Some? ==> a.motion.holdPose.Some?)
  {
    hide CurrentPose;
  }

  lemma GuardHolds(c: Config, w: Worker, i: Input)
    requires w.motion.fault.None?
    ensures var g := Guard(c, w, i);
            && g.states == w.states && g.motion.mode == w.motion.mode
            && g.motion.initialPose == w.motion.initialPose && g.motion.armedAt == w.motion.armedAt
            && (g.motion.fault.Some? ==> w.motion.mode.RequiresTorque())
            && g.motion.holdPose == if g.motion.fault.Some? && CurrentPose(c.ids, w.states).Some?
                                    then CurrentPose(c.ids, w.states) else w.motion.holdPose
  {
    CheckMovesCounters(w.motion, c, w.states, i.imu);
    hide CurrentPose, CheckSafety;
  }

  /** A faulted torque mode always sends the pose it then holds. */
  lemma FaultedSends(c: Config, w: Worker, i: Input)
    requires w.motion.fault.Some? && w.motion.mode.RequiresTorque()
    ensures ManualAction(c, w, i) == Go(w)
    ensures var (v, sent) := Send(c, w, i);
            && sent.Some? && v.motion.holdPose == sent && v.motion.fault == w.motion.fault
            && (w.motion.holdPose.Some? ==> sent == w.motion.holdPose)
  {
    hide CurrentPose;
  }

  /** A tick that trips in its safety check sends, in the same tick, the pose it then holds:
      the measured one when every servo has telemetry. */
  lemma CheckTripSends(c: Config, w: Worker, i: Input)
    requires Inv(c, w) && !Switches(w, i) && w.motion.fault.None? && Prepare(c, w, i).Go?
    requires Guard(c, ArmMotion(c, Prepare(c, w, i).worker, i), i).motion.fault.Some?
    ensures var t := Tick(c, w, i);
            && t.worker.motion.fault.Some? && t.sent.Some? && t.worker.motion.holdPose == t.sent
            && (CurrentPose(c.ids, t.worker.states).Some? ==> t.sent == CurrentPose(c.ids, t.worker.states))
  {
    hide Prepare, Guard, ArmMotion, Send, ManualAction, CurrentPose;
    PrepareFault(c, w, i);
    var p := Prepare(c, w, i).worker;
    var a := ArmMotion(c, p, i);
    ArmingHolds(c, p, i);
    GuardHolds(c, a, i);
    FaultedSends(c, Guard(c, a, i), i);
    SendKeepsStates(c, Guard(c, a, i), i);
  }

  lemma SendKeepsStates(c: Config, w: Worker, i: Input)
    ensures Send(c, w, i).0.states == w.states && ManualAction(c, w, i).worker.states == w.states
  {
    hide CurrentPose;
  }

  /** What the acting half of an unfaulted tick holds when it trips. */
  lemma ActTripPose(c: Config, w: Worker, i: Input)
    requires Ready(c, w) && w.motion.fault.None?
    ensures var (t, known) := (Act(c, w, i), CurrentPose(c.ids, w.states));
            t.worker.motion.fault.Some? ==>
              && t.worker.states == w.states
              && (t.worker.motion.holdPose.None? <==> w.motion.holdPose.None? && known.None? && t.sent.None?)
              && (w.motion.holdPose.None? && known.None? ==>
                    t.worker.motion.holdPose == t.sent
                    && (t.sent.None? || t.sent == Some(i.fallback(w.motion.mode))))
  {
    var a := ArmMotion(c, w, i);
    ArmingHolds(c, w, i);
    ArmAndGuardKeep(c, w, i);
    GuardHolds(c, a, i);
    var g := Guard(c, a, i);
    SendKeepsStates(c, g, i);
    if g.motion.fault.Some? {
      FaultedSends(c, g, i);
      FaultedFallback(c, g, i);
    } else {
      UnfaultedTripPose(c, g, i);
    }
    hide ArmMotion, Guard, Send, ManualAction, CurrentPose, Inv;
  }

  lemma FaultedFallback(c: Config, w: Worker, i: Input)
    requires w.motion.fault.Some? && w.motion.mode.RequiresTorque()
    ensures w.motion.holdPose.None? && w.motion.initialPose.None? ==>
              Send(c, w, i).1 == Some(i.fallback(w.motion.mode))
  {
    hide CurrentPose;
  }

  lemma UnfaultedTripPose(c: Config, w: Worker, i: Input)
    requires w.motion.fault.None? && (w.motion.armedAt.Some? ==> w.motion.holdPose.Some?)
    ensures var (m, known) := (ManualAction(c, w, i), CurrentPose(c.ids, w.states));
            m.Stop? ==> m.worker.motion.holdPose == if known.Some? then known else w.motion.holdPose
    ensures var (v, sent) := Send(c, w, i);
            ManualAction(c, w, i).Go? ==>
              ManualAction(c, w, i).worker == w
              && (v.motion.fault.Some? ==> v.motion.holdPose.Some? && sent.Some? && w.motion.holdPose.Some?)
  {
    hide CurrentPose;
  }

  /** A tick that trips a fault leaves no pose held exactly when none was held before it, not
      every servo's position is known at the trip, and it sends nothing. Where it does send then,
      it is the mode's fallback pose, held from then on. */
  lemma TripLeavesNoPoseIff(c: Config, w: Worker, i: Input)
    requires Inv(c, w) && !Switches(w, i) && w.motion.fault.None?
    requires Tick(c, w, i).worker.motion.fault.Some?
    ensures var (t, m) := (Tick(c, w, i), w.motion);
            var known := CurrentPose(c.ids, t.worker.states);
            && (t.worker.motion.holdPose.None? <==> m.holdPose.None? && known.None? && t.sent.None?)
            && (m.holdPose.None? && known.None? ==>
                  t.worker.motion.holdPose == t.sent && (t.sent.None? || t.sent == Some(i.fallback(m.mode))))
  {
    hide Prepare, Act, CurrentPose;
    PrepareKeeps(c, w, i);
    PrepareFault(c, w, i);
    PrepareTripPose(c, w, i);
    if Prepare(c, w, i).Go? {
      ActTripPose(c, Prepare(c, w, i).worker, i);
    }
  }

  // ----------------------------------------------------------- a fault with nothing to hold

  /** The link drops at the first read after start-up; then it is back, but no servo answers. */
  function LostLink(pose: Pose): seq<Input> {
    [Input(None, None, true, true, false, (k: nat) => Offline(true), true, true, true,
           (m: BrainMode, p: Pose, e: real) => p, (m: BrainMode) => pose, 0.0, 0.0),
     Input(None, None, true, true, false, (k: nat) => Offline(false), true, true, true,
           (m: BrainMode, p: Pose, e: real) => p, (m: BrainMode) => pose, 1.0, 1.0)]
  }

  /** After these answers nothing is known of any servo. */
  lemma {:induction false} OfflineUnknown(ids: seq<u8>, states: ServoStates, cursor: nat, readings: nat -> Reading,
                                          k: nat)
    requires cursor < |ids| && (forall i :: 0 <= i < k ==> readings(i).Offline?)
    requires forall id :: id in ids ==> TelemetryOf(states, id).None?
    ensures forall id :: id in ids ==> TelemetryOf(Polled(ids, states, cursor, readings, k), id).None?
    decreases k
  {
    if k > 0 {
      OfflineUnknown(ids, states, cursor, readings, k - 1);
      AdvanceInRange(cursor, |ids|, k - 1);
    }
  }

  lemma UnknownIsNoPose(ids: seq<u8>, states: ServoStates)
    requires ids != [] && forall id :: id in ids ==> TelemetryOf(states, id).None?
    ensures CurrentPose(ids, states).None?
  {
    assert ids[0] in ids;
  }

  ghost predicate Unknown(c: Config, w: Worker) {
    forall id :: id in c.ids ==> TelemetryOf(w.states, id).None?
  }

  lemma LinkDrops(c: Config, w: Worker, i: Input)
    requires Configured(c) && w == Initial(c, Stand) && i == LostLink(i.fallback(Stand))[0]
    ensures w.cursor < |c.ids|
    ensures var t := Tick(c, w, i);
            && t.worker.motion == New(Stand).(fault := Some(LinkDropped)) && t.sent.None?
            && !t.worker.busOpen && !t.worker.torqueEnabled && Unknown(c, t.worker) && t.worker.cursor < |c.ids|
  {
    OfflineUnknown(c.ids, w.states, 0, i.readings, |c.ids|);
    UnknownIsNoPose(c.ids, Polled(c.ids, w.states, 0, i.readings, |c.ids|));
    AdvanceInRange(0, |c.ids|, |c.ids|);
    assert i.readings(0) == Offline(true);
    assert WantsReopen(i.readings, |c.ids|);
    hide CurrentPose, Polled, Advance, WantsReopen;
  }

  lemma FallbackIsSent(c: Config, w: Worker, i: Input, pose: Pose)
    requires Configured(c) && w.motion == New(Stand).(fault := Some(LinkDropped))
    requires !w.busOpen && !w.torqueEnabled && Unknown(c, w) && w.cursor < |c.ids| && i == LostLink(pose)[1]
    ensures var t := Tick(c, w, i);
            && t.sent == Some(pose) && t.armed.None? && t.worker.torqueEnabled && t.worker.busOpen
            && t.worker.motion.fault == Some(LinkDropped)
  {
    OfflineUnknown(c.ids, w.states, w.cursor, i.readings, |c.ids|);
    UnknownIsNoPose(c.ids, Polled(c.ids, w.states, w.cursor, i.readings, |c.ids|));
    hide CurrentPose, Polled, Advance;
  }

  /** A run that gets there, on any robot: the link drops before any servo has answered, the
      fault holds no pose, and the next tick, unarmed, drives the servos to the fallback pose. */
  lemma FaultWithoutPoseHappens(c: Config, pose: Pose)
    requires Configured(c)
    ensures Inv(c, Initial(c, Stand)) && |LostLink(pose)| == 2
    ensures var (w, inputs) := (Initial(c, Stand), LostLink(pose));
            && Before(c, w, inputs, 1).motion.fault == Some(LinkDropped)
            && Before(c, w, inputs, 1).motion.holdPose.None?
            && Run(c, w, inputs)[1].sent == Some(pose) && Run(c, w, inputs)[1].armed.None?
            && Before(c, w, inputs, 2).torqueEnabled && Before(c, w, inputs, 2).busOpen
  {
    InitialInv(c, Stand);
    var (w, inputs) := (Initial(c, Stand), LostLink(pose));
    hide Tick, Inv, Initial;
    RunStep(c, w, inputs, 0);
    RunStep(c, w, inputs, 1);
    LinkDrops(c, w, inputs[0]);
    FallbackIsSent(c, Before(c, w, inputs, 1), inputs[1], pose);
  }

  /** The one way out: a switch to a different mode starts from a fresh runtime, so that an
      earlier fault, hold pose or strike count has no influence on the tick. */
  lemma SwitchForgets(c: Config, w: Worker, v: Worker, i: Input)
    requires Inv(c, w) && Inv(c, v)
    requires Switches(w, i) && Switches(v, i)
    requires w.(motion := v.motion) == v
    ensures Tick(c, w, i) == Tick(c, v, i)
  {
  }

  // --------------------------------------------------------- what the hardware's failures do

  /** A worker starts with its bus closed, its torque off and nothing known, unarmed and with no
      fault or strike. */
  lemma StartsClosed(c: Config, mode: BrainMode, id: u8)
    ensures var (w, m) := (Initial(c, mode), Initial(c, mode).motion);
            && !w.busOpen && !w.torqueEnabled && w.cursor == 0 && TelemetryOf(w.states, id).None?
            && m.mode == mode && m.armedAt.None? && m.initialPose.None? && m.holdPose.None? && m.fault.None?
            && m.bodyAttitudeStrikes == 0 && m.lowVoltageStrikes == map[]
  {
  }

  /** After a closed bus nothing is taken to be on: unless the bus opens and, in a mode that
      drives the servos, torque is enabled anew, the tick ends unarmed with its bus closed, and
      has read, armed and sent nothing. */
  lemma ReopenedBusNeedsTorque(c: Config, w: Worker, i: Input)
    requires Inv(c, w) && !Switches(w, i) && !w.busOpen && w.motion.mode != Telemetry_
    requires !i.busOpens || !i.torqueEnables
    ensures var t := Tick(c, w, i);
            && !t.worker.busOpen && !t.worker.torqueEnabled && t.worker.motion.armedAt.None?
            && t.worker.cursor == w.cursor && t.worker.states == w.states
            && t.sent.None? && t.armed.None? && t.worker.motion.fault == w.motion.fault
  {
  }

  /** Telemetry mode never switches torque on. */
  lemma TelemetryKeepsTorqueOff(c: Config, w: Worker, i: Input)
    requires Inv(c, w) && !Switches(w, i) && w.motion.mode == Telemetry_ && !w.torqueEnabled
    ensures !Tick(c, w, i).worker.torqueEnabled
  {
    hide CurrentPose, Polled, WantsReopen, Advance;
  }

  lemma PollFaults(c: Config, w: Worker, i: Input)
    requires Inv(c, w) && !Switches(w, i) && w.motion.fault.None?
    ensures var p := Prepare(c, w, i);
            p.worker.motion.fault.None?
            || (p.Stop? && p.worker.motion.fault == Some(LinkDropped) && !p.worker.busOpen
                && exists k :: 0 <= k && i.readings(k) == Offline(true))
  {
    hide CurrentPose, Polled, Advance;
  }

  lemma SendFaults(c: Config, w: Worker, i: Input)
    requires w.motion.fault.None?
    ensures var (m, s) := (ManualAction(c, w, i), Send(c, w, i));
            && (m.Stop? <==> w.motion.mode == Manual && !i.manualActionWorks)
            && (m.Stop? ==> m.worker.motion.fault == Some(ManualUtilityFailed) && !m.worker.busOpen)
            && (s.0.motion.fault.Some? <==> s.1.Some? && !i.sendWorks)
            && (s.0.motion.fault.Some? ==> s.0.motion.fault == Some(SendFailed) && !s.0.busOpen && !s.0.torqueEnabled)
  {
    hide CurrentPose;
  }

  /** Which faults a tick trips, and why: the link drops only when an answer asks for a reopen, a
      manual action fails only in manual mode, a write only when something was sent; each of the
      three gives up the bus. */
  lemma FaultCauses(c: Config, w: Worker, i: Input)
    requires Inv(c, w) && !Switches(w, i) && w.motion.fault.None?
    ensures var (t, f) := (Tick(c, w, i), Tick(c, w, i).worker.motion.fault);
            && (f == Some(LinkDropped) ==>
                  t.sent.None? && !t.worker.busOpen && exists k :: 0 <= k && i.readings(k) == Offline(true))
            && (f == Some(ManualUtilityFailed) ==>
                  w.motion.mode == Manual && !i.manualActionWorks && t.sent.None? && !t.worker.busOpen)
            && (f == Some(SendFailed) ==>
                  !i.sendWorks && t.sent.Some? && !t.worker.busOpen && !t.worker.torqueEnabled)
            && (f.None? && t.sent.Some? ==> i.sendWorks)
            && (f.None? && w.motion.mode == Manual && Prepare(c, w, i).Go? ==> i.manualActionWorks)
  {
    PollFaults(c, w, i);
    PrepareFault(c, w, i);
    hide Prepare, ArmMotion, Guard, CurrentPose, ManualAction, Send;
    if Prepare(c, w, i).Go? {
      var p := Prepare(c, w, i).worker;
      var a := ArmMotion(c, p, i);
      ArmingHolds(c, p, i);
      GuardHolds(c, a, i);
      GuardReasons(c, a, i);
      var g := Guard(c, a, i);
      if g.motion.fault.None? {
        SendFaults(c, g, i);
      } else {
        FaultedSends(c, g, i);
      }
    }
  }

  lemma GuardReasons(c: Config, w: Worker, i: Input)
    requires w.motion.fault.None?
    ensures var f := Guard(c, w, i).motion.fault;
            f.None? || f.value.BodyRoll? || f.value.BodyPitch? || f.value.LowVoltage? || f.value.OverTemperature?
  {
    ServoReasons(c.safety, c.ids, w.states, w.motion.lowVoltageStrikes, 0);
    hide CurrentPose, CheckServos;
  }

  lemma {:induction false} ServoReasons(safety: SafetyConfig, ids: seq<u8>, states: ServoStates,
                                        strikes: map<u8, u8>, i: nat)
    requires i <= |ids|
    ensures var f := CheckServos(safety, ids, states, strikes, i).1;
            f.None? || f.value.LowVoltage? || f.value.OverTemperature?
    decreases |ids| - i
  {
    if i < |ids| {
      match TelemetryOf(states, ids[i])
      case None => ServoReasons(safety, ids, states, strikes, i + 1);
      case Some(t) => ServoReasons(safety, ids, states, VoltageStrikes(safety, strikes, ids[i], t), i + 1);
    }
  }
}
