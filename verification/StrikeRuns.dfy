/** The strike counters over runs of the control worker: what a run's ticks do to the counters,
    as a history, and when the worker's own evaluation trips. */
module StrikeRuns {
  import opened Results
  import opened Words
  import opened ServoPoll
  import opened Motion
  import opened Strikes
  import opened Supervisor
  import opened SupervisorRuns

  function SetupOf(c: Config, mode: BrainMode): Setup { Setup(mode, c.safety, c.ids) }

  // ------------------------------------------------------- the history a tick adds

  function OpenOps(w: Worker, i: Input): seq<Op> {
    if w.busOpen || (i.busOpens && !w.motion.mode.RequiresTorque()) then [] else [DisarmOp]
  }

  function TorqueOps(w: Worker, i: Input): seq<Op> {
    if EnableTorque(w, i).Stop? then [DisarmOp] else []
  }

  function ArmOps(c: Config, w: Worker, i: Input): seq<Op> {
    if !w.motion.mode.RequiresTorque() || w.motion.armedAt.Some? || CurrentPose(c.ids, w.states).None? then []
    else if i.torqueRestores then [ArmOp(CurrentPose(c.ids, w.states).value, i.now)]
    else [DisarmOp]
  }

  function GuardOps(w: Worker, i: Input): seq<Op> {
    if w.motion.mode.RequiresTorque() && w.motion.fault.None? then [CheckOp(i.imu, w.states)] else []
  }

  /** Up to acting. */
  function PrepareOps(w: Worker, i: Input): seq<Op> {
    match OpenBus(w, i)
    case Stop(_) => OpenOps(w, i)
    case Go(w1) => OpenOps(w, i) + TorqueOps(w1, i)
  }

  function ActOps(c: Config, w: Worker, i: Input): seq<Op> {
    ArmOps(c, w, i) + GuardOps(ArmMotion(c, w, i), i)
  }

  function TickOps(c: Config, w: Worker, i: Input): seq<Op>
    requires w.cursor < |c.ids|
  {
    match Prepare(c, w, i)
    case Stop(_) => PrepareOps(w, i)
    case Go(w1) => PrepareOps(w, i) + ActOps(c, w1, i)
  }

  // ------------------------------------------------------------------ stage by stage

  lemma DisarmAgrees(s: Setup, ops: seq<Op>, m: Motion)
    requires Agrees(s, ops, m)
    ensures Agrees(s, ops + [DisarmOp], Disarm(m))
  {
    assert Front(ops + [DisarmOp]) == ops && Last(ops + [DisarmOp]) == DisarmOp;
  }

  lemma ArmAgrees(s: Setup, ops: seq<Op>, m: Motion, pose: Pose, now: real)
    requires Agrees(s, ops, m) && m.armedAt.None?
    ensures Agrees(s, ops + [ArmOp(pose, now)], Arm(m, pose, now))
  {
    var op := ArmOp(pose, now);
    assert Front(ops + [op]) == ops && Last(ops + [op]) == op;
  }

  lemma OpenAgrees(s: Setup, ops: seq<Op>, w: Worker, i: Input)
    requires Agrees(s, ops, w.motion)
    ensures Agrees(s, ops + OpenOps(w, i), OpenBus(w, i).worker.motion)
  {
    hide Agrees;
    DisarmAgrees(s, ops, w.motion);
    assert ops + [] == ops;
  }

  lemma TorqueAgrees(s: Setup, ops: seq<Op>, w: Worker, i: Input)
    requires Agrees(s, ops, w.motion)
    ensures Agrees(s, ops + TorqueOps(w, i), EnableTorque(w, i).worker.motion)
  {
    hide Agrees;
    DisarmAgrees(s, ops, w.motion);
    assert ops + [] == ops;
  }

  lemma ArmStageAgrees(c: Config, s: Setup, ops: seq<Op>, w: Worker, i: Input)
    requires Agrees(s, ops, w.motion)
    ensures Agrees(s, ops + ArmOps(c, w, i), ArmMotion(c, w, i).motion)
  {
    hide Agrees, CurrentPose;
    assert ops + [] == ops;
    DisarmAgrees(s, ops, w.motion);
    if w.motion.armedAt.None? && CurrentPose(c.ids, w.states).Some? {
      ArmAgrees(s, ops, w.motion, CurrentPose(c.ids, w.states).value, i.now);
    }
  }

  /** The worker's evaluation trips exactly when a run of the history reaches its threshold,
      and otherwise leaves counters that agree with the longer history. */
  lemma GuardTripsIff(c: Config, ops: seq<Op>, w: Worker, i: Input)
    requires Configured(c) && w.motion.fault.None? && w.motion.mode.RequiresTorque()
    requires Agrees(SetupOf(c, w.motion.mode), ops, w.motion)
    ensures var s := SetupOf(c, w.motion.mode);
            && (Guard(c, w, i).motion.fault.Some? <==> RunReaches(s, ops, CheckOp(i.imu, w.states)))
            && (Guard(c, w, i).motion.fault.None? ==>
                  Agrees(s, ops + GuardOps(w, i), Guard(c, w, i).motion))
  {
    var s := SetupOf(c, w.motion.mode);
    OneEvaluation(s, ops, CheckOp(i.imu, w.states), w.motion);
    CheckMovesCounters(w.motion, c, w.states, i.imu);
    hide Agrees, RunReaches, CheckSafety;
  }

  lemma GuardAgrees(c: Config, ops: seq<Op>, w: Worker, i: Input)
    requires Configured(c) && w.motion.fault.None?
    requires Agrees(SetupOf(c, w.motion.mode), ops, w.motion)
    ensures Guard(c, w, i).motion.fault.None? ==>
              Agrees(SetupOf(c, w.motion.mode), ops + GuardOps(w, i), Guard(c, w, i).motion)
  {
    hide Agrees, CheckSafety;
    assert ops + [] == ops;
    if w.motion.mode.RequiresTorque() {
      GuardTripsIff(c, ops, w, i);
    }
  }

  /** Only what the counters and the arming say matters. */
  lemma AgreesAlike(s: Setup, ops: seq<Op>, m: Motion, n: Motion)
    requires Agrees(s, ops, m) && n.mode == m.mode && n.armedAt == m.armedAt
    requires n.bodyAttitudeStrikes == m.bodyAttitudeStrikes && n.lowVoltageStrikes == m.lowVoltageStrikes
    ensures Agrees(s, ops, n)
  {
  }

  lemma SendAgrees(c: Config, s: Setup, ops: seq<Op>, w: Worker, i: Input)
    requires Agrees(s, ops, w.motion)
    ensures Agrees(s, ops, ManualAction(c, w, i).worker.motion)
    ensures Agrees(s, ops, Send(c, w, i).0.motion)
  {
    hide Agrees, CurrentPose;
    AgreesAlike(s, ops, w.motion, ManualAction(c, w, i).worker.motion);
    AgreesAlike(s, ops, w.motion, Send(c, w, i).0.motion);
  }

  lemma ActAgrees(c: Config, ops: seq<Op>, w: Worker, i: Input)
    requires Configured(c) && w.motion.fault.None?
    requires Agrees(SetupOf(c, w.motion.mode), ops, w.motion)
    ensures var after := Act(c, w, i).worker.motion;
            after.fault.None? ==> Agrees(SetupOf(c, w.motion.mode), ops + ActOps(c, w, i), after)
  {
    hide Agrees, ArmMotion, Guard, ManualAction, Send, ArmOps, GuardOps;
    var s := SetupOf(c, w.motion.mode);
    var w1 := ArmMotion(c, w, i);
    var w2 := Guard(c, w1, i);
    FaultsStay(c, w2, i);
    ArmStageAgrees(c, s, ops, w, i);
    ArmKeepsModeAndFault(c, w, i);
    GuardAgrees(c, ops + ArmOps(c, w, i), w1, i);
    assert ops + ArmOps(c, w, i) + GuardOps(w1, i) == ops + ActOps(c, w, i);
    if w2.motion.fault.None? {
      SendAgrees(c, s, ops + ActOps(c, w, i), w2, i);
    }
  }

  lemma ArmKeepsModeAndFault(c: Config, w: Worker, i: Input)
    ensures ArmMotion(c, w, i).motion.mode == w.motion.mode && ArmMotion(c, w, i).motion.fault == w.motion.fault
  {
    hide CurrentPose;
  }

  lemma FaultsStay(c: Config, w: Worker, i: Input)
    ensures w.motion.fault.Some? ==>
              ManualAction(c, w, i) == Go(w) && Send(c, w, i).0.motion.fault == w.motion.fault
    ensures ManualAction(c, w, i).Go? ==> ManualAction(c, w, i).worker == w
  {
    hide CurrentPose;
  }

  lemma PrepareAgrees(c: Config, s: Setup, ops: seq<Op>, w: Worker, i: Input)
    requires w.cursor < |c.ids| && !Switches(w, i) && Agrees(s, ops, w.motion)
    ensures Agrees(s, ops + PrepareOps(w, i), Prepare(c, w, i).worker.motion)
  {
    OpenAgrees(s, ops, w, i);
    if OpenBus(w, i).Go? {
      var w1 := OpenBus(w, i).worker;
      TorqueAgrees(s, ops + OpenOps(w, i), w1, i);
      assert ops + OpenOps(w, i) + TorqueOps(w1, i) == ops + PrepareOps(w, i);
      if EnableTorque(w1, i).Go? {
        PollAgrees(c, s, ops + PrepareOps(w, i), EnableTorque(w1, i).worker, i);
      }
    }
    hide Agrees, Poll;
  }

  lemma PollAgrees(c: Config, s: Setup, ops: seq<Op>, w: Worker, i: Input)
    requires w.cursor < |c.ids| && Agrees(s, ops, w.motion)
    ensures Agrees(s, ops, Poll(c, w, i).worker.motion)
  {
    hide Agrees, CurrentPose, Polled, Advance, WantsReopen;
    AgreesAlike(s, ops, w.motion, Poll(c, w, i).worker.motion);
  }

  lemma AgreesMode(s: Setup, ops: seq<Op>, m: Motion)
    requires Agrees(s, ops, m)
    ensures m.mode == s.mode
  {
  }

  lemma InvCursor(c: Config, w: Worker)
    requires Inv(c, w)
    ensures w.cursor < |c.ids|
  {
  }

  /** One unfaulted tick leaves counters that agree with the history it extends. */
  lemma TickAgrees(c: Config, ops: seq<Op>, w: Worker, i: Input)
    requires Configured(c) && Inv(c, w) && !Switches(w, i) && w.motion.fault.None?
    requires Agrees(SetupOf(c, w.motion.mode), ops, w.motion)
    ensures var after := Tick(c, w, i).worker.motion;
            after.fault.None? ==>
              after.mode == w.motion.mode
              && Agrees(SetupOf(c, w.motion.mode), ops + TickOps(c, w, i), after)
  {
    hide Prepare, Act, PrepareOps, ActOps, Inv, Agrees;
    var s := SetupOf(c, w.motion.mode);
    InvCursor(c, w);
    PrepareAgrees(c, s, ops, w, i);
    PrepareFault(c, w, i);
    if Prepare(c, w, i).Go? {
      var w1 := Prepare(c, w, i).worker;
      ActAgrees(c, ops + PrepareOps(w, i), w1, i);
      assert ops + PrepareOps(w, i) + ActOps(c, w1, i) == ops + TickOps(c, w, i);
    }
    var after := Tick(c, w, i).worker.motion;
    if after.fault.None? {
      AgreesMode(s, ops + TickOps(c, w, i), after);
    }
  }

  // ------------------------------------------------------------------------ whole runs

  /** A switch to another mode and the tick it opens: the tick is that of a worker already
      switched. */
  lemma SwitchFirst(c: Config, w: Worker, i: Input)
    requires w.cursor < |c.ids|
    ensures SwitchMode(w, i).cursor == w.cursor && !Switches(SwitchMode(w, i), i)
    ensures Tick(c, w, i) == Tick(c, SwitchMode(w, i), i)
    ensures Switches(w, i) ==> SwitchMode(w, i).motion == New(SwitchMode(w, i).motion.mode)
  {
  }

  lemma SwitchKeepsInv(c: Config, w: Worker, i: Input)
    requires Inv(c, w)
    ensures Inv(c, SwitchMode(w, i))
  {
  }

  /** The worker tick `k` acts with, after a switch if there is one. */
  ghost function Acting(c: Config, w: Worker, inputs: seq<Input>, k: nat): Worker
    requires Inv(c, w) && k < |inputs|
  {
    SwitchMode(Before(c, w, inputs, k), inputs[k])
  }

  /** The history tick `k` of a run starts from: it restarts at a switch. */
  ghost function HistoryAt(c: Config, w: Worker, inputs: seq<Input>, k: nat): seq<Op>
    requires Inv(c, w) && k < |inputs|
    decreases k, 1
  {
    if Switches(Before(c, w, inputs, k), inputs[k]) then [] else History(c, w, inputs, k)
  }

  /** The history of a run's first `k` ticks, since the latest switch. */
  ghost function History(c: Config, w: Worker, inputs: seq<Input>, k: nat): seq<Op>
    requires Inv(c, w) && k <= |inputs|
    decreases k, 0
  {
    if k == 0 then []
    else
      var v := Acting(c, w, inputs, k - 1);
      ActingInv(c, w, inputs, k - 1);
      HistoryAt(c, w, inputs, k - 1) + TickOps(c, v, inputs[k - 1])
  }

  lemma ActingInv(c: Config, w: Worker, inputs: seq<Input>, k: nat)
    requires Inv(c, w) && k < |inputs|
    ensures Inv(c, Before(c, w, inputs, k)) && Inv(c, Acting(c, w, inputs, k))
    ensures Acting(c, w, inputs, k).cursor == Before(c, w, inputs, k).cursor < |c.ids|
    ensures !Switches(Acting(c, w, inputs, k), inputs[k])
    ensures Run(c, w, inputs)[k] == Tick(c, Acting(c, w, inputs, k), inputs[k])
  {
    RunStep(c, w, inputs, k);
    InvCursor(c, Before(c, w, inputs, k));
    SwitchFirst(c, Before(c, w, inputs, k), inputs[k]);
    SwitchKeepsInv(c, Before(c, w, inputs, k), inputs[k]);
  }

  /** A fault once latched outlasts every tick without a switch. */
  lemma LatchOutlasts(c: Config, v: Worker, i: Input)
    requires Inv(c, v) && !Switches(v, i)
    ensures v.motion.fault.Some? ==> Tick(c, v, i).worker.motion.fault.Some?
  {
    hide Tick, Inv;
    if v.motion.fault.Some? {
      TickUnderFault(c, v, i);
    }
  }

  /** Strike counters refine history over every run of the worker that starts with a fresh
      runtime, whatever the hardware did and however often the mode was switched: whenever no
      fault is latched, each voltage counter is the length of its servo's latest unbroken run of
      low evaluations since the latest switch, and the body counter that of its own run. */
  lemma {:induction false} CountersAreRunsOfTheWorker(c: Config, w: Worker, inputs: seq<Input>, k: nat)
    requires Configured(c) && Inv(c, w) && k <= |inputs| && w.motion == New(w.motion.mode)
    requires Before(c, w, inputs, k).motion.fault.None?
    ensures var m := Before(c, w, inputs, k).motion;
            Agrees(SetupOf(c, m.mode), History(c, w, inputs, k), m)
    decreases k, 0
  {
    hide Agrees, TickOps, Tick, SwitchMode;
    if k == 0 {
      FreshAgrees(c, w.motion.mode);
    } else {
      ActingInv(c, w, inputs, k - 1);
      var v := Acting(c, w, inputs, k - 1);
      LatchOutlasts(c, v, inputs[k - 1]);
      ActingAgrees(c, w, inputs, k - 1);
      TickAgrees(c, HistoryAt(c, w, inputs, k - 1), v, inputs[k - 1]);
    }
  }

  /** The same where a tick of the run starts to act. */
  lemma {:induction false} ActingAgrees(c: Config, w: Worker, inputs: seq<Input>, k: nat)
    requires Configured(c) && Inv(c, w) && k < |inputs| && w.motion == New(w.motion.mode)
    requires Acting(c, w, inputs, k).motion.fault.None?
    ensures var m := Acting(c, w, inputs, k).motion;
            Agrees(SetupOf(c, m.mode), HistoryAt(c, w, inputs, k), m)
    decreases k, 1
  {
    hide Agrees, TickOps, Tick, SwitchMode;
    ActingInv(c, w, inputs, k);
    var before := Before(c, w, inputs, k);
    SwitchFirst(c, before, inputs[k]);
    if Switches(before, inputs[k]) {
      FreshAgrees(c, Acting(c, w, inputs, k).motion.mode);
    } else {
      StaysWithoutSwitch(before, inputs[k]);
      CountersAreRunsOfTheWorker(c, w, inputs, k);
    }
  }

  lemma StaysWithoutSwitch(w: Worker, i: Input)
    requires !Switches(w, i)
    ensures SwitchMode(w, i) == w
  {
  }

  lemma FreshAgrees(c: Config, mode: BrainMode)
    ensures Agrees(SetupOf(c, mode), [], New(mode))
  {
  }

  /** The worker tick `k` checks, and the history up to that check. */
  ghost function Checked(c: Config, w: Worker, inputs: seq<Input>, k: nat): Worker
    requires Inv(c, w) && k < |inputs|
  {
    ActingInv(c, w, inputs, k);
    ArmMotion(c, Prepare(c, Acting(c, w, inputs, k), inputs[k]).worker, inputs[k])
  }

  ghost function HistoryAtCheck(c: Config, w: Worker, inputs: seq<Input>, k: nat): seq<Op>
    requires Inv(c, w) && k < |inputs|
  {
    ActingInv(c, w, inputs, k);
    var v := Acting(c, w, inputs, k);
    HistoryAt(c, w, inputs, k) + PrepareOps(v, inputs[k]) + ArmOps(c, Prepare(c, v, inputs[k]).worker, inputs[k])
  }

  /** Whenever a tick of such a run gets, with no fault latched, as far as its safety check, the
      check trips exactly when some run of the history since the latest switch reaches its
      threshold there. */
  lemma TripsExactlyWhenARunReaches(c: Config, w: Worker, inputs: seq<Input>, k: nat)
    requires Configured(c) && Inv(c, w) && k < |inputs| && w.motion == New(w.motion.mode)
    requires Acting(c, w, inputs, k).motion.fault.None? && Acting(c, w, inputs, k).motion.mode.RequiresTorque()
    requires Acting(c, w, inputs, k).cursor < |c.ids| && Prepare(c, Acting(c, w, inputs, k), inputs[k]).Go?
    ensures var w1 := Checked(c, w, inputs, k);
            Guard(c, w1, inputs[k]).motion.fault.Some?
            <==> RunReaches(SetupOf(c, Acting(c, w, inputs, k).motion.mode), HistoryAtCheck(c, w, inputs, k),
                            CheckOp(inputs[k].imu, w1.states))
  {
    ActingInv(c, w, inputs, k);
    ActingAgrees(c, w, inputs, k);
    hide Agrees, RunReaches, PrepareOps, ArmOps, Guard, ArmMotion, Prepare, Acting, HistoryAt;
    var (v, i) := (Acting(c, w, inputs, k), inputs[k]);
    var s := SetupOf(c, v.motion.mode);
    var w0 := Prepare(c, v, i).worker;
    PrepareFault(c, v, i);
    PrepareAgrees(c, s, HistoryAt(c, w, inputs, k), v, i);
    ArmStageAgrees(c, s, HistoryAt(c, w, inputs, k) + PrepareOps(v, i), w0, i);
    ArmKeepsModeAndFault(c, w0, i);
    GuardTripsIff(c, HistoryAtCheck(c, w, inputs, k), ArmMotion(c, w0, i), i);
  }

  // ------------------------------------------------------------------------ a tipped body

  /** One tick with a tipped look: a fault, or a strike more. */
  lemma TippedTick(c: Config, w: Worker, i: Input)
    requires Inv(c, w) && !Switches(w, i) && Tipped(c.safety, i.imu)
    requires w.motion.mode != Manual && w.motion.armedAt.Some? && w.motion.fault.None?
    requires w.motion.bodyAttitudeStrikes < 3
    ensures var m := Tick(c, w, i).worker.motion;
            m.fault.Some?
            || (m.armedAt.Some? && m.mode == w.motion.mode
                && m.bodyAttitudeStrikes == w.motion.bodyAttitudeStrikes + 1 < 3)
  {
    ArmedPrepares(c, w, i);
    hide Prepare, Inv, Tipped;
    if Prepare(c, w, i).Go? {
      var w1 := Prepare(c, w, i).worker;
      TippedGuard(c, w1, i);
      ArmedAct(c, w1, i);
    }
  }

  /** An armed motion polls, or drops the link and is faulted. */
  lemma ArmedPrepares(c: Config, w: Worker, i: Input)
    requires Inv(c, w) && !Switches(w, i) && w.motion.armedAt.Some? && w.motion.fault.None?
    ensures w.motion.mode != Telemetry_
    ensures Prepare(c, w, i).Stop? ==> Tick(c, w, i).worker.motion.fault.Some?
    ensures Prepare(c, w, i).Go? ==> Prepare(c, w, i).worker.motion == w.motion
  {
    hide CurrentPose, Polled, WantsReopen, Advance;
  }

  lemma TippedGuard(c: Config, w: Worker, i: Input)
    requires Tipped(c.safety, i.imu) && w.motion.mode != Manual && w.motion.mode != Telemetry_
    requires w.motion.fault.None? && w.motion.bodyAttitudeStrikes < 3
    ensures var g := Guard(c, w, i).motion;
            g.fault.Some?
            || (g.armedAt == w.motion.armedAt && g.mode == w.motion.mode
                && g.bodyAttitudeStrikes == w.motion.bodyAttitudeStrikes + 1 < 3)
  {
    LookStrikesIff(c.safety, i.imu.value);
    hide CurrentPose, CheckServos, Attitude;
  }

  lemma ArmedAct(c: Config, w: Worker, i: Input)
    requires w.motion.armedAt.Some? && w.motion.fault.None?
    ensures var (g, m) := (Guard(c, w, i).motion, Act(c, w, i).worker.motion);
            && (g.fault.Some? ==> m.fault.Some?)
            && (m.fault.None? ==> m.armedAt == g.armedAt && m.mode == g.mode
                                  && m.bodyAttitudeStrikes == g.bodyAttitudeStrikes)
  {
    hide CurrentPose, CheckSafety;
  }

  /** A body that is tipped in three consecutive looks, to whatever sides, is faulted after the
      third, in every run, whatever the hardware does meanwhile. */
  lemma ThreeTippedTicksFault(c: Config, w: Worker, inputs: seq<Input>, k: nat)
    requires Configured(c) && Inv(c, w) && k + 3 <= |inputs| && w.motion == New(w.motion.mode)
    requires var m := Before(c, w, inputs, k).motion; m.armedAt.Some? && m.mode != Manual
    requires forall j :: k <= j < k + 3 ==>
      !Switches(Before(c, w, inputs, j), inputs[j]) && Tipped(c.safety, inputs[j].imu)
    ensures Before(c, w, inputs, k + 3).motion.fault.Some?
  {
    hide Inv, Tick, Tipped, Before, Switches;
    if Before(c, w, inputs, k).motion.fault.None? {
      CountersAreRunsOfTheWorker(c, w, inputs, k);
      AgreesIsLow(SetupOf(c, Before(c, w, inputs, k).motion.mode), History(c, w, inputs, k),
                  Before(c, w, inputs, k).motion);
    }
    TippedStep(c, w, inputs, k);
    TippedStep(c, w, inputs, k + 1);
    TippedStep(c, w, inputs, k + 2);
  }

  lemma AgreesIsLow(s: Setup, ops: seq<Op>, m: Motion)
    requires Agrees(s, ops, m)
    ensures m.bodyAttitudeStrikes < 3
  {
  }

  lemma TippedStep(c: Config, w: Worker, inputs: seq<Input>, k: nat)
    requires Inv(c, w) && k < |inputs|
    requires !Switches(Before(c, w, inputs, k), inputs[k]) && Tipped(c.safety, inputs[k].imu)
    ensures var (m, n) := (Before(c, w, inputs, k).motion, Before(c, w, inputs, k + 1).motion);
            && (m.fault.Some? ==> n.fault.Some?)
            && (m.fault.None? && m.mode != Manual && m.armedAt.Some? && m.bodyAttitudeStrikes < 3 ==>
                  n.fault.Some?
                  || (n.armedAt.Some? && n.mode == m.mode && n.bodyAttitudeStrikes == m.bodyAttitudeStrikes + 1 < 3))
  {
    BeforeNext(c, w, inputs, k);
    hide Inv, Tick, Tipped, Before, Switches;
    var v := Before(c, w, inputs, k);
    if v.motion.fault.Some? {
      LatchOutlasts(c, v, inputs[k]);
    } else if v.motion.mode != Manual && v.motion.armedAt.Some? && v.motion.bodyAttitudeStrikes < 3 {
      TippedTick(c, v, inputs[k]);
    }
  }

  /** A servo known to be hotter than the limit. */
  predicate Hot(c: Config, states: ServoStates, id: u8) {
    && id in states && states[id].Some? && states[id].value.temperatureC.Some?
    && states[id].value.temperatureC.value > c.safety.maxServoTempC
  }

  lemma {:induction false} HotIsFound(c: Config, states: ServoStates, strikes: map<u8, u8>, i: nat, j: nat)
    requires i <= j < |c.ids| && Hot(c, states, c.ids[j])
    ensures CheckServos(c.safety, c.ids, states, strikes, i).1.Some?
    decreases j - i
  {
    if i < j {
      match TelemetryOf(states, c.ids[i])
      case None => HotIsFound(c, states, strikes, i + 1, j);
      case Some(t) => HotIsFound(c, states, VoltageStrikes(c.safety, strikes, c.ids[i], t), i + 1, j);
    }
  }

  lemma HotGuard(c: Config, w: Worker, i: Input, j: nat)
    requires w.motion.mode != Telemetry_ && w.motion.fault.None? && j < |c.ids| && Hot(c, w.states, c.ids[j])
    ensures Guard(c, w, i).motion.fault.Some?
  {
    hide CurrentPose, CheckServos, CheckAttitude, Hot;
    HotIsFound(c, w.states, w.motion.lowVoltageStrikes, 0, j);
  }

  /** One look at a servo that is too hot faults a torque mode, in the same tick. */
  lemma HeatFaults(c: Config, w: Worker, i: Input, j: nat)
    requires Inv(c, w) && !Switches(w, i) && w.motion.fault.None? && w.motion.mode != Telemetry_
    requires Prepare(c, w, i).Go? && j < |c.ids| && Hot(c, Prepare(c, w, i).worker.states, c.ids[j])
    ensures Tick(c, w, i).worker.motion.fault.Some?
  {
    PrepareFault(c, w, i);
    hide Prepare, Guard, ArmMotion, Send, ManualAction, CurrentPose, Hot, Inv;
    var p := Prepare(c, w, i).worker;
    ArmingHolds(c, p, i);
    HotGuard(c, ArmMotion(c, p, i), i, j);
    FaultedSends(c, Guard(c, ArmMotion(c, p, i), i), i);
    GuardHolds(c, ArmMotion(c, p, i), i);
  }
}
