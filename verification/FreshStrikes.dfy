/** On how many readings a servo's low-voltage strikes rest, over runs of the control worker. */
module FreshStrikes {
  import opened Results
  import opened Words
  import opened ServoPoll
  import opened Motion
  import opened Strikes
  import opened Supervisor
  import opened SupervisorRuns
  import opened StrikeRuns
  import opened PollRuns

  // ------------------------------------------------------- the ticks a run of strikes fell in

  /** The tick of an acting worker gets as far as its safety check. */
  predicate Evaluates(c: Config, v: Worker, i: Input)
    requires v.cursor < |c.ids|
  {
    Prepare(c, v, i).Go? && GuardOps(ArmMotion(c, Prepare(c, v, i).worker, i), i) != []
  }

  lemma ActingCursor(c: Config, w: Worker, inputs: seq<Input>, k: nat)
    requires Inv(c, w) && k < |inputs|
    ensures Acting(c, w, inputs, k).cursor < |c.ids|
  {
    ActingInv(c, w, inputs, k);
  }

  /** The strikes before tick `k`, which a switch in it forgets. */
  ghost function StrikesAt(c: Config, w: Worker, inputs: seq<Input>, k: nat, id: u8): seq<nat>
    requires Inv(c, w) && k < |inputs|
    decreases k, 1
  {
    if Switches(Before(c, w, inputs, k), inputs[k]) then [] else StrikeTicks(c, w, inputs, k, id)
  }

  /** The ticks, among the first `k`, of the latest unbroken run of low evaluations of a servo. */
  ghost function StrikeTicks(c: Config, w: Worker, inputs: seq<Input>, k: nat, id: u8): seq<nat>
    requires Inv(c, w) && k <= |inputs|
    decreases k, 0
  {
    if k == 0 then []
    else
      ActingCursor(c, w, inputs, k - 1);
      var earlier := StrikesAt(c, w, inputs, k - 1, id);
      if !Evaluates(c, Acting(c, w, inputs, k - 1), inputs[k - 1]) then earlier
      else match TelemetryOf(Before(c, w, inputs, k).states, id)
           case None => earlier
           case Some(t) => if LowVoltageSeen(c.safety, t) then earlier + [k - 1] else []
  }

  predicate NoCheck(ops: seq<Op>) { forall k :: 0 <= k < |ops| ==> !ops[k].CheckOp? }

  lemma {:induction false} VoltageRunSkips(s: Setup, ops: seq<Op>, more: seq<Op>, id: u8)
    requires NoCheck(more)
    ensures VoltageRun(s, ops + more, id) == VoltageRun(s, ops, id)
    decreases |more|
  {
    if more == [] {
      assert ops + more == ops;
    } else {
      var n := |more| - 1;
      assert Front(ops + more) == ops + more[..n] && Last(ops + more) == more[n];
      VoltageRunSkips(s, ops, more[..n], id);
    }
  }

  lemma QuietOps(c: Config, w: Worker, i: Input)
    ensures NoCheck(PrepareOps(w, i)) && NoCheck(ArmOps(c, w, i))
  {
    hide CurrentPose;
  }

  /** A tick moves a servo's run by its one evaluation, or not at all. */
  lemma TickMovesRun(c: Config, s: Setup, ops: seq<Op>, v: Worker, i: Input, id: u8)
    requires v.cursor < |c.ids|
    ensures VoltageRun(s, ops + TickOps(c, v, i), id)
         == if Evaluates(c, v, i) then Counted(s, Prepare(c, v, i).worker.states, VoltageRun(s, ops, id), id)
            else VoltageRun(s, ops, id)
  {
    hide Prepare, PrepareOps, ArmOps, ArmMotion, VoltageRun, Counted;
    QuietOps(c, v, i);
    VoltageRunSkips(s, ops, PrepareOps(v, i), id);
    if Prepare(c, v, i).Go? {
      var w1 := Prepare(c, v, i).worker;
      var w2 := ArmMotion(c, w1, i);
      ArmKeepsStates(c, w1, i);
      QuietOps(c, w1, i);
      VoltageRunSkips(s, ops + PrepareOps(v, i), ArmOps(c, w1, i), id);
      var before := ops + PrepareOps(v, i) + ArmOps(c, w1, i);
      assert ops + TickOps(c, v, i) == before + GuardOps(w2, i);
      if GuardOps(w2, i) == [] {
        assert before + [] == before;
      } else {
        RunOfNext(s, before, CheckOp(i.imu, w2.states), id);
      }
    }
  }

  lemma ArmKeepsStates(c: Config, w: Worker, i: Input)
    ensures ArmMotion(c, w, i).states == w.states
  {
    hide CurrentPose;
  }

  lemma SafetyDecides(c: Config, states: ServoStates, mode: BrainMode, before: nat, id: u8)
    ensures Counted(SetupOf(c, mode), states, before, id)
         == match TelemetryOf(states, id)
            case None => before
            case Some(t) => if LowVoltageSeen(c.safety, t) then before + 1 else 0
  {
  }

  /** As long as the run is long before a tick, it is after the tick. */
  lemma StrikeCounts(c: Config, w: Worker, inputs: seq<Input>, k: nat, id: u8, mode: BrainMode)
    requires Configured(c) && Inv(c, w) && k < |inputs|
    requires |StrikesAt(c, w, inputs, k, id)| == VoltageRun(SetupOf(c, mode), HistoryAt(c, w, inputs, k), id)
    ensures |StrikeTicks(c, w, inputs, k + 1, id)| == VoltageRun(SetupOf(c, mode), History(c, w, inputs, k + 1), id)
  {
    hide TickOps, Evaluates, Counted, Acting, TelemetryOf, Inv, Tick, VoltageRun, StrikesAt, HistoryAt, Prepare,
      TickAnswers;
    ActingInv(c, w, inputs, k);
    var (s, v, i) := (SetupOf(c, mode), Acting(c, w, inputs, k), inputs[k]);
    TickMovesRun(c, s, HistoryAt(c, w, inputs, k), v, i, id);
    TickLearns(c, v, i, 0);
    SafetyDecides(c, Before(c, w, inputs, k + 1).states, mode, VoltageRun(s, HistoryAt(c, w, inputs, k), id), id);
  }

  /** The strike ticks are as many as the history's run is long. */
  lemma {:induction false} StrikeTicksCount(c: Config, w: Worker, inputs: seq<Input>, k: nat, id: u8, mode: BrainMode)
    requires Configured(c) && Inv(c, w) && k <= |inputs|
    ensures |StrikeTicks(c, w, inputs, k, id)| == VoltageRun(SetupOf(c, mode), History(c, w, inputs, k), id)
    decreases k
  {
    hide StrikeTicks, History, Inv, Before, Switches, VoltageRun;
    if k == 0 {
      NothingYet(c, w, inputs, id, mode);
    } else {
      StrikeTicksCount(c, w, inputs, k - 1, id, mode);
      EmptyRun(SetupOf(c, mode), id);
      StrikeCounts(c, w, inputs, k - 1, id, mode);
    }
  }

  lemma EmptyRun(s: Setup, id: u8)
    ensures VoltageRun(s, [], id) == 0
  {
  }

  lemma NothingYet(c: Config, w: Worker, inputs: seq<Input>, id: u8, mode: BrainMode)
    requires Inv(c, w)
    ensures |StrikeTicks(c, w, inputs, 0, id)| == VoltageRun(SetupOf(c, mode), History(c, w, inputs, 0), id)
  {
  }

  // -------------------------------------------------------------- strikes rest on readings

  /** The strike ticks lie in order before `k`, and each of them polls. */
  ghost predicate InOrder(c: Config, w: Worker, inputs: seq<Input>, k: nat, ticks: seq<nat>)
    requires Inv(c, w) && k <= |inputs|
  {
    && (forall x :: 0 <= x < |ticks| ==> ticks[x] < k && Polls(c, w, inputs, ticks[x]))
    && (forall x, y :: 0 <= x < y < |ticks| ==> ticks[x] < ticks[y])
    && (ticks != [] ==> PollingTicks(c, w, inputs, ticks[0], k - ticks[0]) >= |ticks|)
  }

  ghost predicate Polls(c: Config, w: Worker, inputs: seq<Input>, k: nat)
    requires Inv(c, w)
  {
    k < |inputs| && ReadyToPoll(Before(c, w, inputs, k), inputs[k]).Go?
  }

  lemma EvaluatingPolls(c: Config, w: Worker, i: Input)
    requires w.cursor < |c.ids|
    ensures SwitchMode(w, i).cursor < |c.ids|
    ensures Evaluates(c, SwitchMode(w, i), i) ==> ReadyToPoll(w, i).Go?
  {
    hide CurrentPose, Polled, WantsReopen, Advance;
  }

  /** What tick `k` does to the strike ticks: nothing, forget them, or become one itself. */
  lemma StrikeTicksStep(c: Config, w: Worker, inputs: seq<Input>, k: nat, id: u8)
    requires Inv(c, w) && k < |inputs|
    ensures var (ticks, after) := (StrikeTicks(c, w, inputs, k, id), StrikeTicks(c, w, inputs, k + 1, id));
            after == ticks || after == []
            || (Polls(c, w, inputs, k) && (after == ticks + [k] || after == [k]))
  {
    ActingInv(c, w, inputs, k);
    EvaluatingPolls(c, Before(c, w, inputs, k), inputs[k]);
    hide Evaluates, TelemetryOf, Inv, ReadyToPoll, SwitchMode, Before;
    assert [] + [k] == [k];
  }

  lemma {:induction false} StrikeTicksInOrder(c: Config, w: Worker, inputs: seq<Input>, k: nat, id: u8)
    requires Inv(c, w) && k <= |inputs|
    ensures InOrder(c, w, inputs, k, StrikeTicks(c, w, inputs, k, id))
    decreases k
  {
    hide Inv, StrikeTicks, Polls, PollingTicks;
    if k == 0 {
      NoStrikesYet(c, w, inputs, id);
    } else {
      StrikeTicksInOrder(c, w, inputs, k - 1, id);
      StrikeTicksStep(c, w, inputs, k - 1, id);
      OrderExtends(c, w, inputs, k - 1, StrikeTicks(c, w, inputs, k - 1, id));
      OrderExtends(c, w, inputs, k - 1, []);
      assert [] + [k - 1] == [k - 1];
    }
  }

  lemma NoStrikesYet(c: Config, w: Worker, inputs: seq<Input>, id: u8)
    requires Inv(c, w)
    ensures StrikeTicks(c, w, inputs, 0, id) == []
  {
  }

  lemma OrderExtends(c: Config, w: Worker, inputs: seq<Input>, k: nat, ticks: seq<nat>)
    requires Inv(c, w) && k < |inputs| && InOrder(c, w, inputs, k, ticks)
    ensures InOrder(c, w, inputs, k + 1, ticks)
    ensures Polls(c, w, inputs, k) ==> InOrder(c, w, inputs, k + 1, ticks + [k])
  {
    hide Before, Inv, ReadyToPoll;
    var more := ticks + [k];
    assert more[0] == if ticks == [] then k else ticks[0];
    assert forall x :: 0 <= x < |ticks| ==> more[x] == ticks[x];
  }

  /** Whenever a servo has a run of low evaluations, at least `r b / n` answers of it were read
      since the tick of its first strike, where `r` is the length of the run and `b` the least
      budget; and the strikes are evaluations of these answers, the latest of which is what is
      known of the servo. Six strikes rest on at least `6 b / n` readings. */
  lemma StrikesRestOnReadings(c: Config, w: Worker, inputs: seq<Input>, k: nat, j: nat, mode: BrainMode)
    requires Configured(c) && Inv(c, w) && k <= |inputs| && j < |c.ids|
    requires VoltageRun(SetupOf(c, mode), History(c, w, inputs, k), c.ids[j]) > 0
    ensures var ticks := StrikeTicks(c, w, inputs, k, c.ids[j]);
            && |ticks| == VoltageRun(SetupOf(c, mode), History(c, w, inputs, k), c.ids[j])
            && ticks[0] < k
            && (var answers := WindowAnswers(c, w, inputs, ticks[0], k - ticks[0], j);
                && |answers| >= |ticks| * LeastBudget(c) / |c.ids|
                && (answers != [] ==>
                      TelemetryOf(Before(c, w, inputs, k).states, c.ids[j]) == Known(answers[|answers| - 1])))
  {
    hide VoltageRun, History, StrikeTicks, WindowAnswers, PollingTicks, LeastBudget, TelemetryOf, Inv;
    StrikeTicksCount(c, w, inputs, k, c.ids[j], mode);
    StrikeTicksInOrder(c, w, inputs, k, c.ids[j]);
    var ticks := StrikeTicks(c, w, inputs, k, c.ids[j]);
    ServoReadInWindow(c, w, inputs, ticks[0], k - ticks[0], j);
    var polling := PollingTicks(c, w, inputs, ticks[0], k - ticks[0]);
    MultipleGrows(|ticks|, polling, LeastBudget(c));
    QuotientGrows(|ticks| * LeastBudget(c), polling * LeastBudget(c), |c.ids|);
  }

  // ------------------------------------------------------------ a reading for each strike

  /** Servo number `j` answers in tick `t` itself, so that what the tick evaluates is its own
      reading. */
  ghost predicate OwnReading(c: Config, w: Worker, inputs: seq<Input>, t: nat, j: nat)
    requires Inv(c, w)
  {
    t < |inputs| && TickAnswers(c, Before(c, w, inputs, t), inputs[t], j) != []
  }

  /** Each strike of servo number `j` before tick `k` has a reading of its own. */
  ghost predicate EachHasItsReading(c: Config, w: Worker, inputs: seq<Input>, k: nat, j: nat)
    requires Inv(c, w) && k <= |inputs| && j < |c.ids|
  {
    var ticks := StrikeTicks(c, w, inputs, k, c.ids[j]);
    forall x :: 0 <= x < |ticks| ==> OwnReading(c, w, inputs, ticks[x], j)
  }

  lemma PollingWholeLapAnswers(c: Config, w: Worker, i: Input, j: nat)
    requires w.cursor < |c.ids| && j < |c.ids| && LeastBudget(c) == |c.ids| && ReadyToPoll(w, i).Go?
    ensures TickAnswers(c, w, i, j) != []
  {
    hide ReadyToPoll, LeastBudget, Advance, TickReads;
    PollingReads(c, w, i);
    WholeLapAnswers(c, w, i, j);
  }

  lemma WholeLapAnswers(c: Config, w: Worker, i: Input, j: nat)
    requires w.cursor < |c.ids| && j < |c.ids| && TickReads(c, w, i) >= |c.ids|
    ensures TickAnswers(c, w, i, j) != []
  {
    hide TickReads, Advance;
    var (n, m) := (|c.ids|, TickReads(c, w, i));
    AnswersAreVisits(w.cursor, n, j, i.readings, m);
    VisitsSplit(w.cursor, n, j, n, m - n);
    LapVisitsAllOnce(w.cursor, n, j);
  }

  /** With a stride of at least `n`, every strike of every run has its own reading. */
  lemma WholeStrideReadsEachTime(c: Config, w: Worker, inputs: seq<Input>, k: nat, j: nat)
    requires Inv(c, w) && k <= |inputs| && j < |c.ids| && LeastBudget(c) == |c.ids|
    ensures EachHasItsReading(c, w, inputs, k, j)
  {
    StrikeTicksInOrder(c, w, inputs, k, c.ids[j]);
    var ticks := StrikeTicks(c, w, inputs, k, c.ids[j]);
    hide StrikeTicks, TickAnswers, ReadyToPoll, LeastBudget, PollingTicks;
    forall x | 0 <= x < |ticks|
      ensures OwnReading(c, w, inputs, ticks[x], j)
    {
      assert Polls(c, w, inputs, ticks[x]);
      RunStepInv(c, w, inputs, ticks[x]);
      PollingWholeLapAnswers(c, Before(c, w, inputs, ticks[x]), inputs[ticks[x]], j);
    }
  }

  // --------------------------------------------------------------- the first of the strikes

  /** A motion that ends a tick armed and unfaulted has been evaluated in it. */
  lemma ArmedIsEvaluated(c: Config, v: Worker, i: Input)
    requires Inv(c, v) && !Switches(v, i)
    requires Tick(c, v, i).worker.motion.armedAt.Some? && Tick(c, v, i).worker.motion.fault.None?
    ensures v.cursor < |c.ids| && Evaluates(c, v, i)
  {
    hide CurrentPose, CheckSafety, Polled, WantsReopen, Advance, Commands;
    TickKeeps(c, v, i);
    ModeStays(c, v, i);
    FaultOutlastsTick(c, v, i);
    if Prepare(c, v, i).Go? {
      ArmKeepsModeAndFault(c, Prepare(c, v, i).worker, i);
    }
  }

  lemma ModeStays(c: Config, v: Worker, i: Input)
    requires v.cursor < |c.ids| && !Switches(v, i)
    ensures Tick(c, v, i).worker.motion.mode == v.motion.mode == Prepare(c, v, i).worker.motion.mode
  {
    PrepareKeepsMode(c, v, i);
    hide Prepare, Act;
    if Prepare(c, v, i).Go? {
      ActKeepsMode(c, Prepare(c, v, i).worker, i);
    }
  }

  lemma FaultOutlastsTick(c: Config, v: Worker, i: Input)
    requires v.cursor < |c.ids| && !Switches(v, i)
    ensures Prepare(c, v, i).worker.motion.fault.Some? ==> Tick(c, v, i).worker.motion.fault.Some?
  {
    hide Prepare, Act;
    if Prepare(c, v, i).Go? {
      ActKeepsMode(c, Prepare(c, v, i).worker, i);
    }
  }

  lemma PrepareKeepsMode(c: Config, v: Worker, i: Input)
    requires v.cursor < |c.ids| && !Switches(v, i)
    ensures Prepare(c, v, i).worker.motion.mode == v.motion.mode
  {
    hide CurrentPose, Polled, WantsReopen, Advance;
  }

  lemma ActKeepsMode(c: Config, w: Worker, i: Input)
    ensures Act(c, w, i).worker.motion.mode == w.motion.mode
    ensures w.motion.fault.Some? ==> Act(c, w, i).worker.motion.fault.Some?
  {
    var w1 := ArmMotion(c, w, i);
    ArmKeepsModeAndFault(c, w, i);
    GuardKeepsMode(c, w1, i);
    hide ArmMotion, Guard, ManualAction, Send;
    SendKeepsMode(c, Guard(c, w1, i), i);
  }

  lemma GuardKeepsMode(c: Config, w: Worker, i: Input)
    ensures Guard(c, w, i).motion.mode == w.motion.mode
    ensures w.motion.fault.Some? ==> Guard(c, w, i).motion.fault.Some?
  {
    hide CurrentPose, CheckServos, CheckAttitude;
  }

  lemma SendKeepsMode(c: Config, w: Worker, i: Input)
    ensures ManualAction(c, w, i).worker.motion.mode == w.motion.mode == Send(c, w, i).0.motion.mode
    ensures w.motion.fault.Some? ==>
              ManualAction(c, w, i) == Go(w) && Send(c, w, i).0.motion.fault.Some?
    ensures ManualAction(c, w, i).Go? ==> ManualAction(c, w, i).worker == w
  {
    hide CurrentPose;
  }

  /** A tick that acts unarmed and polls reads every servo. */
  lemma UnarmedReadsAll(c: Config, w: Worker, i: Input)
    requires SwitchMode(w, i).motion.armedAt.None? && ReadyToPoll(w, i).Go?
    ensures TickReads(c, w, i) >= |c.ids|
  {
  }

  /** While a servo has no strikes and its motion is armed, nothing low is known of it. */
  lemma NoStrikesNothingLow(c: Config, w: Worker, inputs: seq<Input>, k: nat, id: u8)
    requires Inv(c, w) && k <= |inputs| && w.motion.armedAt.None?
    requires StrikeTicks(c, w, inputs, k, id) == []
    requires Before(c, w, inputs, k).motion.armedAt.Some? && Before(c, w, inputs, k).motion.fault.None?
    ensures TelemetryOf(Before(c, w, inputs, k).states, id).Some? ==>
              !LowVoltageSeen(c.safety, TelemetryOf(Before(c, w, inputs, k).states, id).value)
  {
    hide Tick, Inv, Evaluates, TelemetryOf, SwitchMode, LowVoltageSeen;
    if k > 0 {
      ActingInv(c, w, inputs, k - 1);
      BeforeNext(c, w, inputs, k - 1);
      ActingCursor(c, w, inputs, k - 1);
      ArmedIsEvaluated(c, Acting(c, w, inputs, k - 1), inputs[k - 1]);
    }
  }

  /** The first strike of a run of strikes has a reading of its own: an armed motion has looked
      at every reading before, and an unarmed one reads all servos. */
  lemma FirstStrikeIsRead(c: Config, w: Worker, inputs: seq<Input>, k: nat, j: nat)
    requires Configured(c) && Inv(c, w) && k < |inputs| && j < |c.ids| && w.motion.armedAt.None?
    requires StrikesAt(c, w, inputs, k, c.ids[j]) == [] && StrikeTicks(c, w, inputs, k + 1, c.ids[j]) != []
    ensures OwnReading(c, w, inputs, k, j)
  {
    hide Inv, Tick, TelemetryOf, Evaluates, SwitchMode, LowVoltageSeen, TickAnswers, TickReads, ReadyToPoll;
    var before := Before(c, w, inputs, k);
    ActingInv(c, w, inputs, k);
    ActingCursor(c, w, inputs, k);
    assert Evaluates(c, Acting(c, w, inputs, k), inputs[k]);
    EvaluatingPolls(c, before, inputs[k]);
    EvaluatesUnfaulted(c, Acting(c, w, inputs, k), inputs[k]);
    SwitchUnarms(before, inputs[k]);
    if Acting(c, w, inputs, k).motion.armedAt.None? {
      UnarmedReadsAll(c, before, inputs[k]);
      WholeLapAnswers(c, before, inputs[k], j);
    } else {
      NoStrikesNothingLow(c, w, inputs, k, c.ids[j]);
      StepLearns(c, w, inputs, k, j);
    }
  }

  lemma EvaluatesUnfaulted(c: Config, v: Worker, i: Input)
    requires v.cursor < |c.ids| && Evaluates(c, v, i) && !Switches(v, i)
    ensures v.motion.fault.None?
  {
    hide CurrentPose, Polled, WantsReopen, Advance;
  }

  lemma SwitchUnarms(w: Worker, i: Input)
    ensures Switches(w, i) ==> SwitchMode(w, i).motion.armedAt.None?
    ensures !Switches(w, i) ==> SwitchMode(w, i) == w
  {
  }

  lemma {:induction false} FirstTickIsRead(c: Config, w: Worker, inputs: seq<Input>, k: nat, j: nat)
    requires Configured(c) && Inv(c, w) && k <= |inputs| && j < |c.ids| && w.motion.armedAt.None?
    ensures var ticks := StrikeTicks(c, w, inputs, k, c.ids[j]);
            ticks != [] ==> OwnReading(c, w, inputs, ticks[0], j)
    decreases k
  {
    hide Inv, Before, Evaluates, LowVoltageSeen, TelemetryOf, OwnReading, Acting, Switches;
    if k > 0 {
      FirstTickIsRead(c, w, inputs, k - 1, j);
      if StrikesAt(c, w, inputs, k - 1, c.ids[j]) == [] && StrikeTicks(c, w, inputs, k, c.ids[j]) != [] {
        FirstStrikeIsRead(c, w, inputs, k - 1, j);
      }
    }
  }

  /** A window is its first tick and the rest. */
  lemma {:induction false} WindowSplits(c: Config, w: Worker, inputs: seq<Input>, first: nat, len: nat, j: nat)
    requires Inv(c, w) && first + len <= |inputs| && len > 0
    ensures WindowAnswers(c, w, inputs, first, len, j)
         == TickAnswers(c, Before(c, w, inputs, first), inputs[first], j)
            + WindowAnswers(c, w, inputs, first + 1, len - 1, j)
    ensures PollingTicks(c, w, inputs, first, len) <= 1 + PollingTicks(c, w, inputs, first + 1, len - 1)
    decreases len
  {
    hide Inv, Before, TickAnswers, ReadyToPoll;
    if len == 1 {
      var answers := TickAnswers(c, Before(c, w, inputs, first), inputs[first], j);
      assert WindowAnswers(c, w, inputs, first, 0, j) == [] == WindowAnswers(c, w, inputs, first + 1, 0, j);
      assert [] + answers == answers + [];
    } else {
      WindowSplits(c, w, inputs, first, len - 1, j);
    }
  }

  /** In every run that begins unarmed, a run of `r` strikes rests on at least `1 + (r - 1) b / n`
      readings, the first of them made in the tick of the first strike. */
  lemma StrikesRestOnMore(c: Config, w: Worker, inputs: seq<Input>, k: nat, j: nat)
    requires Configured(c) && Inv(c, w) && k <= |inputs| && j < |c.ids| && w.motion.armedAt.None?
    requires StrikeTicks(c, w, inputs, k, c.ids[j]) != []
    ensures var ticks := StrikeTicks(c, w, inputs, k, c.ids[j]);
            && ticks[0] < k && OwnReading(c, w, inputs, ticks[0], j)
            && |WindowAnswers(c, w, inputs, ticks[0], k - ticks[0], j)|
               >= 1 + (|ticks| - 1) * LeastBudget(c) / |c.ids|
  {
    hide StrikeTicks, WindowAnswers, PollingTicks, LeastBudget, TelemetryOf, Inv, TickAnswers, Before;
    FirstTickIsRead(c, w, inputs, k, j);
    StrikeTicksInOrder(c, w, inputs, k, c.ids[j]);
    var ticks := StrikeTicks(c, w, inputs, k, c.ids[j]);
    var (t, len) := (ticks[0], k - ticks[0]);
    WindowSplits(c, w, inputs, t, len, j);
    ServoReadInWindow(c, w, inputs, t + 1, len - 1, j);
    var polling := PollingTicks(c, w, inputs, t + 1, len - 1);
    MultipleGrows(|ticks| - 1, polling, LeastBudget(c));
    QuotientGrows((|ticks| - 1) * LeastBudget(c), polling * LeastBudget(c), |c.ids|);
  }

  /** Without a voltage limit there are no strikes. */
  lemma {:induction false} NoLimitNoStrikes(c: Config, w: Worker, inputs: seq<Input>, k: nat, id: u8)
    requires Inv(c, w) && k <= |inputs| && c.safety.minBusVoltageV <= 0.0
    ensures StrikeTicks(c, w, inputs, k, id) == []
    decreases k
  {
    hide Evaluates, Inv, Before, TelemetryOf, Acting;
    if k > 0 {
      NoLimitNoStrikes(c, w, inputs, k - 1, id);
    }
  }
}
