/** Whole motions: what runs of the control worker make of the modes' poses. */
module PoseRuns {
  import opened Results
  import opened Words
  import opened Motion
  import opened Supervisor
  import opened SupervisorRuns
  import opened CommandRuns
  import StandUp
  import Gait

  /** The command of tick `k`, when nothing but its write goes wrong. */
  ghost predicate CommandedAt(c: Config, w: Worker, inputs: seq<Input>, k: nat, first: Option<Arming>, mode: BrainMode)
    requires Inv(c, w)
  {
    && k < |inputs| && Remembers(w.motion, first)
    && (Before(c, w, inputs, k).motion.fault.None? || Switches(Before(c, w, inputs, k), inputs[k]))
    && Undisturbed(Run(c, w, inputs)[k]) && Run(c, w, inputs)[k].sent.Some?
    && Run(c, w, inputs)[k].worker.motion.mode == mode
  }

  /** A stand-up ends standing: in whatever run, once its duration has passed since the latest
      arming, every command of the stand-up mode is its target pose; and as soon as it is armed
      the servos are commanded where they were measured. */
  lemma StandUpArrives(c: Config, w: Worker, inputs: seq<Input>, k: nat, first: Option<Arming>,
                       robot: StandUp.Config, layDown: Pose, target: Pose)
    requires Inv(c, w) && CommandedAt(c, w, inputs, k, first, BrainMode.StandUp)
    requires StandUp.Covers(robot, target)
    requires forall base, e :: inputs[k].goal(BrainMode.StandUp, base, e)
                            == StandUp.StagedStandUp(robot, layDown, base, target, e)
    ensures var (sent, latest) := (Run(c, w, inputs)[k].sent, LatestArming(Run(c, w, inputs), inputs, k + 1, first));
            && latest.Some?
            && (inputs[k].later - latest.value.at >= StandUp.Duration(robot) ==> sent == Some(target))
            && (inputs[k].later == latest.value.at && StandUp.Covers(robot, latest.value.pose) ==>
                  forall id :: id in StandUp.ServoIds(robot) ==>
                    id in sent.value && id in latest.value.pose && sent.value[id] == latest.value.pose[id])
  {
    hide Run, Tick, Inv, StandUp.StagedStandUp, StandUp.Duration, StandUp.Covers, StandUp.ServoIds, LatestArming,
      Before, Remembers, Switches, Undisturbed;
    CommandsFollowArming(c, w, inputs, k, first);
    var latest := LatestArming(Run(c, w, inputs), inputs, k + 1, first).value;
    if inputs[k].later - latest.at >= StandUp.Duration(robot) {
      StandUp.CommandAfterEnd(robot, layDown, latest.pose, target, inputs[k].later - latest.at);
    }
    if inputs[k].later == latest.at && StandUp.Covers(robot, latest.pose) {
      forall id | id in StandUp.ServoIds(robot)
        ensures id in Run(c, w, inputs)[k].sent.value && id in latest.pose
                && Run(c, w, inputs)[k].sent.value[id] == latest.pose[id]
      {
        StandUp.CommandAtStart(robot, layDown, latest.pose, target, id);
      }
    }
  }

  /** A walk keeps a tripod standing: in whatever run, every command of a walking mode has all
      legs of one tripod at the ticks the latest arming measured, to within one. */
  lemma WalkStands(c: Config, w: Worker, inputs: seq<Input>, k: nat, first: Option<Arming>, mode: BrainMode,
                   g: Gait.GaitConfig, terms: Gait.Terms, legs: seq<Gait.Leg>, walkSeconds: Option<real>)
    requires Inv(c, w) && CommandedAt(c, w, inputs, k, first, mode) && Gait.WellFormed(legs)
    requires forall base, e :: inputs[k].goal(mode, base, e)
                            == Gait.TripodGaitPose(g, terms, legs, base, e, walkSeconds)
    ensures var (sent, latest) := (Run(c, w, inputs)[k].sent, LatestArming(Run(c, w, inputs), inputs, k + 1, first));
            && latest.Some?
            && (Gait.Captured(legs, latest.value.pose) ==>
                  Gait.TripodPlanted(legs, latest.value.pose, sent.value, true)
                  || Gait.TripodPlanted(legs, latest.value.pose, sent.value, false))
  {
    hide Run, Tick, Inv, Gait.TripodGaitPose, Gait.TripodPlanted, Gait.Captured, Gait.WellFormed, LatestArming, Before,
      Remembers, Switches, Undisturbed;
    CommandsFollowArming(c, w, inputs, k, first);
    var latest := LatestArming(Run(c, w, inputs), inputs, k + 1, first).value;
    if Gait.Captured(legs, latest.pose) {
      Gait.AlwaysOneTripodPlanted(g, terms, legs, latest.pose, inputs[k].later - latest.at, walkSeconds);
    }
  }
}
