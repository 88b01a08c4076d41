/** What a run of the control worker commands while nothing is wrong: the pose its mode derives
    from the pose of the latest arming, and from the time passed since. */
module CommandRuns {
  import opened Results
  import opened Words
  import opened ServoPoll
  import opened Motion
  import opened Supervisor
  import opened SupervisorRuns

  /** A latest arming: its pose and its time. */
  datatype Arming = Arming(pose: Pose, at: real)

  /** The latest arming among the first `k` ticks, or else the one before the run. */
  ghost function LatestArming(ticks: seq<Ticked>, inputs: seq<Input>, k: nat, first: Option<Arming>): Option<Arming>
    requires k <= |ticks| == |inputs|
  {
    if k == 0 then first
    else if ticks[k - 1].armed.Some? then Some(Arming(ticks[k - 1].armed.value, inputs[k - 1].now))
    else LatestArming(ticks, inputs, k - 1, first)
  }

  /** An armed motion remembers its arming. */
  ghost predicate Remembers(m: Motion, arming: Option<Arming>) {
    m.armedAt.Some? ==>
      arming.Some? && m.armedAt == Some(arming.value.at) && m.initialPose == Some(arming.value.pose)
  }

  ghost function After(t: Ticked, i: Input, before: Option<Arming>): Option<Arming> {
    if t.armed.Some? then Some(Arming(t.armed.value, i.now)) else before
  }

  lemma PrepareRemembers(c: Config, w: Worker, i: Input, arming: Option<Arming>)
    requires w.cursor < |c.ids| && Remembers(w.motion, arming)
    ensures Remembers(Prepare(c, w, i).worker.motion, arming)
  {
    hide CurrentPose, Polled, WantsReopen, Advance;
  }

  lemma ArmingIsRemembered(c: Config, w: Worker, i: Input, arming: Option<Arming>)
    requires Remembers(w.motion, arming)
    ensures var pose := ArmingPose(c, w, i);
            Remembers(ArmMotion(c, w, i).motion, if pose.Some? then Some(Arming(pose.value, i.now)) else arming)
  {
    hide CurrentPose;
  }

  lemma ActKeepsArming(c: Config, w: Worker, i: Input)
    ensures var (a, v) := (ArmMotion(c, w, i).motion, Act(c, w, i).worker.motion);
            v.armedAt == a.armedAt && v.initialPose == a.initialPose
  {
    hide CurrentPose;
    var g := Guard(c, ArmMotion(c, w, i), i);
    GuardKeepsArming(c, ArmMotion(c, w, i), i);
    hide ArmMotion, Guard;
    SendKeepsPose(c, g, i);
  }

  lemma GuardKeepsArming(c: Config, w: Worker, i: Input)
    ensures var g := Guard(c, w, i).motion;
            && g.armedAt == w.motion.armedAt && g.initialPose == w.motion.initialPose && g.mode == w.motion.mode
            && (w.motion.fault.Some? ==> g.fault == w.motion.fault)
  {
    CheckMovesCounters(w.motion, c, w.states, i.imu);
    hide CurrentPose, CheckSafety;
  }

  lemma SendKeepsPose(c: Config, w: Worker, i: Input)
    ensures var (a, s) := (ManualAction(c, w, i).worker.motion, Send(c, w, i).0.motion);
            && a.armedAt == w.motion.armedAt && a.initialPose == w.motion.initialPose
            && s.armedAt == w.motion.armedAt && s.initialPose == w.motion.initialPose
  {
    hide CurrentPose;
  }

  /** A tick remembers the arming it makes, or keeps the one before, or forgets. */
  lemma TickRemembers(c: Config, w: Worker, i: Input, arming: Option<Arming>)
    requires w.cursor < |c.ids| && Remembers(w.motion, arming)
    ensures Remembers(Tick(c, w, i).worker.motion, After(Tick(c, w, i), i, arming))
  {
    PrepareRemembers(c, w, i, arming);
    hide Prepare, ArmMotion, Act, CurrentPose;
    if Prepare(c, w, i).Go? {
      var w1 := Prepare(c, w, i).worker;
      ArmingIsRemembered(c, w1, i, arming);
      ActKeepsArming(c, w1, i);
      ActArms(c, w1, i);
    }
  }

  lemma ActArms(c: Config, w: Worker, i: Input)
    ensures Act(c, w, i).armed == ArmingPose(c, w, i)
  {
    hide ArmMotion, Guard, ManualAction, Send, ArmingPose;
  }

  /** What an unfaulted send commands. */
  lemma SendsGoal(c: Config, w: Worker, i: Input, arming: Option<Arming>)
    requires w.motion.fault.None? && Remembers(w.motion, arming)
    ensures var sent := Send(c, w, i).1;
            sent.Some? ==>
              arming.Some? && sent == Some(i.goal(w.motion.mode, arming.value.pose, i.later - arming.value.at))
  {
    hide CurrentPose;
  }

  /** A fault that trips after the command was chosen is that of the write. */
  lemma LateFault(c: Config, w: Worker, i: Input)
    requires Act(c, w, i).worker.motion.fault.None? || Act(c, w, i).worker.motion.fault == Some(SendFailed)
    requires w.motion.fault.None?
    ensures Guard(c, ArmMotion(c, w, i), i).motion.fault.None?
  {
    var a := ArmMotion(c, w, i);
    var g := Guard(c, a, i);
    ArmingHolds(c, w, i);
    CheckTripsNoWrite(c, a, i);
    hide ArmMotion, Guard, CurrentPose;
    if g.motion.fault.Some? {
      SendOutlasts(c, g, i);
    }
  }

  /** The safety check never blames the write. */
  lemma CheckTripsNoWrite(c: Config, w: Worker, i: Input)
    requires w.motion.fault.None?
    ensures Guard(c, w, i).motion.fault != Some(SendFailed)
  {
    CheckReasons(w.motion, c, w.states, i.imu);
    hide CurrentPose, CheckSafety;
  }

  lemma CheckReasons(m: Motion, c: Config, states: ServoStates, imu: Option<ImuState>)
    ensures CheckSafety(m, c.safety, c.ids, states, imu).1 != Some(SendFailed)
    ensures CheckSafety(m, c.safety, c.ids, states, imu).0.fault == m.fault
  {
    ServoReasons(c.safety, c.ids, states, m.lowVoltageStrikes, 0);
  }

  lemma {:induction false} ServoReasons(safety: SafetyConfig, ids: seq<u8>, states: ServoStates,
                                        strikes: map<u8, u8>, i: nat)
    requires i <= |ids|
    ensures CheckServos(safety, ids, states, strikes, i).1 != Some(SendFailed)
    decreases |ids| - i
  {
    if i < |ids| {
      ServoReasons(safety, ids, states, strikes, i + 1);
      match TelemetryOf(states, ids[i])
      case None =>
      case Some(t) => ServoReasons(safety, ids, states, VoltageStrikes(safety, strikes, ids[i], t), i + 1);
    }
  }

  lemma SendOutlasts(c: Config, w: Worker, i: Input)
    requires w.motion.fault.Some?
    ensures ManualAction(c, w, i) == Go(w) && Send(c, w, i).0.motion.fault == w.motion.fault
  {
    hide CurrentPose;
  }

  /** A tick in which nothing but its own write fails. */
  predicate Undisturbed(t: Ticked) {
    t.worker.motion.fault.None? || t.worker.motion.fault == Some(SendFailed)
  }

  /** What such a tick sends is the pose its mode derives from the latest arming, which may be
      its own, and from the time since. */
  lemma TickSendsGoal(c: Config, w: Worker, i: Input, arming: Option<Arming>)
    requires w.cursor < |c.ids| && Remembers(w.motion, arming) && Inv(c, w)
    requires (w.motion.fault.None? || Switches(w, i)) && Undisturbed(Tick(c, w, i))
    ensures var (t, latest) := (Tick(c, w, i), After(Tick(c, w, i), i, arming));
            t.sent.Some? ==>
              latest.Some?
              && t.sent == Some(i.goal(t.worker.motion.mode, latest.value.pose, i.later - latest.value.at))
  {
    PrepareRemembers(c, w, i, arming);
    PrepareFault(c, w, i);
    hide Prepare, Act, ArmMotion, Guard, CurrentPose, Inv;
    if Prepare(c, w, i).Go? {
      var w1 := Prepare(c, w, i).worker;
      ArmingIsRemembered(c, w1, i, arming);
      ActArms(c, w1, i);
      LateFault(c, w1, i);
      GuardKeepsArming(c, ArmMotion(c, w1, i), i);
      ActSends(c, w1, i);
      SendsGoal(c, Guard(c, ArmMotion(c, w1, i), i), i, After(Act(c, w1, i), i, arming));
    }
  }

  lemma ActSends(c: Config, w: Worker, i: Input)
    ensures var g := Guard(c, ArmMotion(c, w, i), i);
            Act(c, w, i).sent.Some? ==>
              Act(c, w, i).sent == Send(c, g, i).1 && Act(c, w, i).worker.motion.mode == g.motion.mode
  {
    hide CurrentPose, ArmMotion, Guard;
  }

  /** The measured pose: there is one exactly when every servo's telemetry is known, and it has
      each servo at its latest position and no other servo. */
  lemma MeasuredPose(ids: seq<u8>, states: ServoStates)
    ensures CurrentPose(ids, states).Some? <==> forall id :: id in ids ==> id in states && states[id].Some?
    ensures CurrentPose(ids, states).Some? ==>
              var pose := CurrentPose(ids, states).value;
              && (forall id :: id in pose <==> id in ids)
              && forall id :: id in ids ==> id in states && states[id].Some?
                                            && pose[id] == states[id].value.positionTicks
  {
    if CurrentPose(ids, states).Some? {
      forall id | id in ids
        ensures id in states && states[id].Some?
      {
        assert TelemetryOf(states, id).Some?;
      }
    }
  }

  /** A tick arms only a motion that is not armed, in a mode that drives the servos, once the
      torque limit is restored, and at the measured pose. */
  lemma ArmsAtMeasured(c: Config, w: Worker, i: Input)
    requires w.cursor < |c.ids| && Tick(c, w, i).armed.Some?
    ensures var t := Tick(c, w, i);
            && i.torqueRestores && Prepare(c, w, i).Go? && Prepare(c, w, i).worker.motion.armedAt.None?
            && Prepare(c, w, i).worker.motion.mode != Telemetry_
            && t.armed == CurrentPose(c.ids, t.worker.states)
  {
    hide Prepare, CurrentPose;
    var p := Prepare(c, w, i).worker;
    ActArms(c, p, i);
    ActKeeps(c, p, i);
    hide Act;
  }

  lemma ActKeeps(c: Config, w: Worker, i: Input)
    ensures Act(c, w, i).worker.states == w.states
  {
    hide CurrentPose, CheckSafety, Commands;
  }

  lemma {:induction false} RunRemembers(c: Config, w: Worker, inputs: seq<Input>, k: nat, first: Option<Arming>)
    requires Inv(c, w) && k <= |inputs| && Remembers(w.motion, first)
    ensures Remembers(Before(c, w, inputs, k).motion, LatestArming(Run(c, w, inputs), inputs, k, first))
    decreases k
  {
    hide Tick, Inv, Remembers;
    if k > 0 {
      RunRemembers(c, w, inputs, k - 1, first);
      RunStep(c, w, inputs, k - 1);
      BeforeNext(c, w, inputs, k - 1);
      TickRemembers(c, Before(c, w, inputs, k - 1), inputs[k - 1],
                    LatestArming(Run(c, w, inputs), inputs, k - 1, first));
    }
  }

  /** Over every run, with switches, disarmings and re-armings: as long as no fault is latched
      before its write, whatever a tick sends is the pose its mode derives from the pose of the
      latest arming and the time since, never from an earlier command. A run that starts
      unarmed has armed by then. */
  lemma CommandsFollowArming(c: Config, w: Worker, inputs: seq<Input>, k: nat, first: Option<Arming>)
    requires Inv(c, w) && k < |inputs| && Remembers(w.motion, first)
    requires Before(c, w, inputs, k).motion.fault.None? || Switches(Before(c, w, inputs, k), inputs[k])
    requires Undisturbed(Run(c, w, inputs)[k])
    ensures var (t, latest) := (Run(c, w, inputs)[k], LatestArming(Run(c, w, inputs), inputs, k + 1, first));
            t.sent.Some? ==>
              latest.Some?
              && t.sent == Some(inputs[k].goal(t.worker.motion.mode, latest.value.pose,
                                               inputs[k].later - latest.value.at))
  {
    hide Tick, Inv, Remembers;
    RunRemembers(c, w, inputs, k, first);
    RunStep(c, w, inputs, k);
    BeforeNext(c, w, inputs, k);
    TickSendsGoal(c, Before(c, w, inputs, k), inputs[k], LatestArming(Run(c, w, inputs), inputs, k, first));
  }
}
