/** A run in which one servo's supply is low: with fewer reads a tick than servos, its six strikes
    come from fewer than six readings. */
module StaleStrikes {
  import opened Results
  import opened Words
  import opened ServoPoll
  import opened Motion
  import opened Strikes
  import opened Supervisor
  import opened SupervisorRuns
  import opened StrikeRuns
  import opened PollRuns
  import opened FreshStrikes

  /** The robot of the run: a voltage limit, and fewer reads a tick than servos. */
  ghost predicate ReadsInTurns(c: Config) {
    Configured(c) && c.safety.minBusVoltageV > 0.0 && LeastBudget(c) < |c.ids|
  }

  function LastServo(c: Config): nat
    requires c.ids != []
  {
    |c.ids| - 1
  }

  /** The last servo is a volt low, all others are on the limit, none reports a temperature. */
  function TelemetryAt(c: Config, j: nat): Telemetry {
    Telemetry(0, if j + 1 == |c.ids| then c.safety.minBusVoltageV - 1.0 else c.safety.minBusVoltageV, None)
  }

  /** Everything works, no mode is pending, and every servo answers truthfully. */
  function Truthful(c: Config, cursor: nat): Input {
    Input(None, None, true, true, false,
          (i: nat) => Online(TelemetryAt(c, Advance(cursor, |c.ids|, i))),
          true, true, true, (m: BrainMode, p: Pose, e: real) => p,
          (m: BrainMode) => map[], 0.0, 0.0)
  }

  /** The cursor before tick `t`: one whole lap before arming, then the stride in each tick. */
  function CursorAt(c: Config, t: nat): nat {
    if t == 0 then 0 else Advance(0, |c.ids|, (t - 1) * LeastBudget(c))
  }

  function SixInputs(c: Config): seq<Input> {
    [Truthful(c, CursorAt(c, 0)), Truthful(c, CursorAt(c, 1)), Truthful(c, CursorAt(c, 2)),
     Truthful(c, CursorAt(c, 3)), Truthful(c, CursorAt(c, 4)), Truthful(c, CursorAt(c, 5))]
  }

  // -------------------------------------------------------------------------- telemetry

  /** Servos `j` and up to `n` are known as they are. */
  ghost predicate AllKnown(c: Config, states: ServoStates) {
    forall j :: 0 <= j < |c.ids| ==> TelemetryOf(states, c.ids[j]) == Some(TelemetryAt(c, j))
  }

  lemma {:induction false} TruthfulAnswers(c: Config, cursor: nat, j: nat, m: nat)
    requires cursor < |c.ids| && j < |c.ids|
    ensures forall k :: 0 <= k < |Answers(cursor, |c.ids|, j, Truthful(c, cursor).readings, m)| ==>
              Answers(cursor, |c.ids|, j, Truthful(c, cursor).readings, m)[k] == Online(TelemetryAt(c, j))
    decreases m
  {
    if m > 0 {
      TruthfulAnswers(c, cursor, j, m - 1);
    }
  }

  /** A tick with truthful answers keeps everything known, and makes it known in a whole lap. */
  lemma PolledKnown(c: Config, w: Worker)
    requires Configured(c) && w.cursor < |c.ids|
    requires AllKnown(c, w.states) || TickReads(c, w, Truthful(c, w.cursor)) >= |c.ids|
    ensures AllKnown(c, Prepare(c, w, Truthful(c, w.cursor)).worker.states)
  {
    hide Prepare, TickReads, Truthful, Visits, Advance;
    var i := Truthful(c, w.cursor);
    forall j | 0 <= j < |c.ids|
      ensures TelemetryOf(Prepare(c, w, i).worker.states, c.ids[j]) == Some(TelemetryAt(c, j))
    {
      var m := TickReads(c, w, i);
      TickLearns(c, w, i, j);
      TruthfulAnswers(c, w.cursor, j, m);
      AnswersAreVisits(w.cursor, |c.ids|, j, i.readings, m);
      if m >= |c.ids| {
        VisitsSplit(w.cursor, |c.ids|, j, |c.ids|, m - |c.ids|);
        LapVisitsAllOnce(w.cursor, |c.ids|, j);
      }
    }
  }

  lemma AllKnownIsPose(c: Config, states: ServoStates)
    requires AllKnown(c, states)
    ensures CurrentPose(c.ids, states).Some?
  {
    forall id | id in c.ids
      ensures TelemetryOf(states, id).Some?
    {
      var j :| 0 <= j < |c.ids| && c.ids[j] == id;
    }
  }

  // --------------------------------------------------------------------------- counters

  /** After `t` strikes of the last servo and none of any other. */
  ghost predicate Struck(c: Config, strikes: map<u8, u8>, t: nat) {
    && (forall id <- strikes :: strikes[id] < 6)
    && forall j :: 0 <= j < |c.ids| ==> StrikesOf(strikes, c.ids[j]) == if j + 1 == |c.ids| then t else 0
  }

  /** One more look: the last servo's sixth strike, and no other, trips. */
  lemma OneMoreStrike(c: Config, states: ServoStates, strikes: map<u8, u8>, t: nat)
    requires ReadsInTurns(c) && AllKnown(c, states) && Struck(c, strikes, t) && t <= 5
    ensures var (after, fault) := CheckServos(c.safety, c.ids, states, strikes, 0);
            && (fault.Some? <==> t == 5)
            && (t < 5 ==> Struck(c, after, t + 1))
  {
    var s := SetupOf(c, Stand);
    ServosCounted(s, states, strikes, 0);
    var last := LastServo(c);
    forall j | 0 <= j < |c.ids|
      ensures Counted(s, states, StrikesOf(strikes, c.ids[j]), c.ids[j]) == if j == last then t + 1 else 0
      ensures Faulty(s, states, strikes, c.ids[j]) <==> j == last && t == 5
    {
      assert TelemetryOf(states, c.ids[j]) == Some(TelemetryAt(c, j));
    }
    hide CheckServos, Counted, Faulty, StrikesOf;
    assert Faulty(s, states, strikes, c.ids[last]) <==> t == 5;
    if t < 5 {
      var after := CheckServos(c.safety, c.ids, states, strikes, 0).0;
      assert Low(s, after);
      forall j | 0 <= j < |c.ids|
        ensures StrikesOf(after, c.ids[j]) == if j + 1 == |c.ids| then t + 1 else 0
      {
        assert s.ids[j] == c.ids[j];
      }
    }
  }

  lemma {:induction false} FaultIsLowVoltage(c: Config, states: ServoStates, strikes: map<u8, u8>, i: nat)
    requires ReadsInTurns(c) && AllKnown(c, states) && Struck(c, strikes, 5) && i < |c.ids|
    ensures CheckServos(c.safety, c.ids, states, strikes, i).1 == Some(LowVoltage(c.ids[LastServo(c)]))
    decreases |c.ids| - i
  {
    assert TelemetryOf(states, c.ids[i]) == Some(TelemetryAt(c, i));
    assert StrikesOf(strikes, c.ids[i]) == if i + 1 == |c.ids| then 5 else 0;
    if i + 1 < |c.ids| {
      var counted := strikes - {c.ids[i]};
      assert VoltageStrikes(c.safety, strikes, c.ids[i], TelemetryAt(c, i)) == counted;
      forall j | 0 <= j < |c.ids|
        ensures StrikesOf(counted, c.ids[j]) == StrikesOf(strikes, c.ids[j])
      {
        assert j != i ==> c.ids[j] != c.ids[i];
      }
      FaultIsLowVoltage(c, states, counted, i + 1);
    }
  }

  // --------------------------------------------------------------------------- the ticks

  /** The worker after `t` ticks of the run. */
  ghost predicate Steady(c: Config, w: Worker, t: nat) {
    && w.motion.mode == Stand && w.motion.armedAt.Some? && w.motion.initialPose.Some? && w.motion.fault.None?
    && w.busOpen && w.torqueEnabled
    && w.cursor == CursorAt(c, t) && w.cursor < |c.ids|
    && AllKnown(c, w.states)
    && Struck(c, w.motion.lowVoltageStrikes, t)
  }

  /** Where a tick of the run starts: fresh, or after earlier ticks. */
  ghost predicate Starts(c: Config, w: Worker, t: nat) {
    if t == 0 then w == Initial(c, Stand) else Steady(c, w, t)
  }

  lemma NoReopen(c: Config, cursor: nat, m: nat)
    ensures !WantsReopen(Truthful(c, cursor).readings, m)
  {
  }

  /** The tick polls: a whole lap when it starts fresh, the stride otherwise. */
  lemma TickPolls(c: Config, w: Worker, t: nat)
    requires ReadsInTurns(c) && Starts(c, w, t)
    ensures var i := Truthful(c, CursorAt(c, t));
            && w.cursor == CursorAt(c, t) < |c.ids| && !Switches(w, i)
            && ReadyToPoll(w, i).Go?
            && TickReads(c, w, i) == (if t == 0 then |c.ids| else LeastBudget(c))
            && Prepare(c, w, i).Go?
            && (var p := Prepare(c, w, i).worker;
                && p.busOpen && p.torqueEnabled && p.motion == (if t == 0 then New(Stand) else w.motion))
  {
    NoReopen(c, w.cursor, TickReads(c, w, Truthful(c, CursorAt(c, t))));
    hide Polled, Advance, WantsReopen, AllKnown, Struck, CurrentPose;
  }

  lemma NoneStruck(c: Config)
    ensures Struck(c, map[], 0)
  {
  }

  lemma ImuIsSilent(c: Config, cursor: nat)
    ensures Truthful(c, cursor).imu.None? && Truthful(c, cursor).torqueRestores
  {
  }

  /** The check of tick `t` is the `t + 1`st strike. */
  lemma TickStrikes(c: Config, w: Worker, t: nat)
    requires ReadsInTurns(c) && Starts(c, w, t) && t <= 5 && w.cursor < |c.ids|
    ensures var i := Truthful(c, CursorAt(c, t));
            && Prepare(c, w, i).Go?
            && (var p := Prepare(c, w, i).worker;
                var g := Guard(c, ArmMotion(c, p, i), i);
                && AllKnown(c, p.states) && g.states == p.states
                && g.busOpen && g.torqueEnabled && g.cursor == p.cursor
                && g.motion.mode == Stand && g.motion.armedAt.Some? && g.motion.initialPose.Some?
                && (t < 5 ==> g.motion.fault.None? && Struck(c, g.motion.lowVoltageStrikes, t + 1))
                && (t == 5 ==> g.motion.fault == Some(LowVoltage(c.ids[LastServo(c)]))))
  {
    hide Prepare, AllKnown, Struck, CurrentPose, CheckServos, TickReads, ReadyToPoll, CursorAt, Truthful;
    var i := Truthful(c, CursorAt(c, t));
    ImuIsSilent(c, CursorAt(c, t));
    TickPolls(c, w, t);
    PolledKnown(c, w);
    var p := Prepare(c, w, i).worker;
    AllKnownIsPose(c, p.states);
    NoneStruck(c);
    var a := ArmMotion(c, p, i);
    assert a.states == p.states && a.motion.armedAt.Some? && a.motion.initialPose.Some? && a.motion.mode == Stand;
    OneMoreStrike(c, p.states, a.motion.lowVoltageStrikes, t);
    if t == 5 {
      FaultIsLowVoltage(c, p.states, a.motion.lowVoltageStrikes, 0);
    }
  }

  lemma ActKeepsGuarded(c: Config, p: Worker, i: Input)
    requires i.manualActionWorks && i.sendWorks
    ensures var (g, v) := (Guard(c, ArmMotion(c, p, i), i), Act(c, p, i).worker);
            && v == g.(motion := v.motion)
            && v.motion == g.motion.(holdPose := v.motion.holdPose)
  {
    hide Guard, ArmMotion;
  }

  /** One tick of the run, the sixth of which trips. */
  lemma TickOfRun(c: Config, w: Worker, t: nat)
    requires ReadsInTurns(c) && Starts(c, w, t) && t <= 5
    ensures var i := Truthful(c, CursorAt(c, t));
            && w.cursor < |c.ids| && !Switches(w, i) && Evaluates(c, w, i)
            && TickReads(c, w, i) == (if t == 0 then |c.ids| else LeastBudget(c))
            && (var v := Tick(c, w, i).worker;
                && AllKnown(c, v.states)
                && (t < 5 ==> Steady(c, v, t + 1))
                && (t == 5 ==> v.motion.fault == Some(LowVoltage(c.ids[LastServo(c)]))))
  {
    var i := Truthful(c, CursorAt(c, t));
    TickPolls(c, w, t);
    TickStrikes(c, w, t);
    TickMovesCursor(c, w, i);
    NextCursor(c, t);
    var p := Prepare(c, w, i).worker;
    ArmedChecks(c, p, i);
    hide Prepare, AllKnown, Struck, Act, Guard, ArmMotion, TickReads, Truthful, CursorAt, Advance;
    TruthfulWorks(c, CursorAt(c, t));
    ActKeepsGuarded(c, p, i);
  }

  lemma TruthfulWorks(c: Config, cursor: nat)
    ensures Truthful(c, cursor).manualActionWorks && Truthful(c, cursor).sendWorks
  {
  }

  lemma ArmedChecks(c: Config, p: Worker, i: Input)
    requires p.motion.mode == Stand && p.motion.fault.None?
    ensures GuardOps(ArmMotion(c, p, i), i) != []
  {
    hide CurrentPose;
  }

  lemma NextCursor(c: Config, t: nat)
    requires c.ids != []
    ensures CursorAt(c, t + 1) == Advance(CursorAt(c, t), |c.ids|, if t == 0 then |c.ids| else LeastBudget(c))
    ensures CursorAt(c, t + 1) < |c.ids|
  {
    var (n, b) := (|c.ids|, LeastBudget(c));
    AdvanceInRange(0, n, t * b);
    LapVisitsAllOnce(0, n, 0);
    hide Advance, LeastBudget;
    AdvanceNone(0, n);
    if t > 0 {
      AdvanceAdds(0, n, (t - 1) * b, b);
      OneMoreTick(t - 1, b);
    }
  }

  // ----------------------------------------------------------------------------- the run

  lemma SixRun(c: Config)
    requires ReadsInTurns(c)
    ensures Inv(c, Initial(c, Stand)) && |SixInputs(c)| == 6
    ensures forall t :: 0 <= t <= 5 ==> SixInputs(c)[t] == Truthful(c, CursorAt(c, t))
  {
    InitialInv(c, Stand);
  }

  lemma StartsFresh(c: Config)
    ensures Starts(c, Initial(c, Stand), 0)
  {
  }

  lemma {:induction false} RunIsSteady(c: Config, t: nat)
    requires ReadsInTurns(c) && t <= 5
    ensures Inv(c, Initial(c, Stand))
    ensures Starts(c, Before(c, Initial(c, Stand), SixInputs(c), t), t)
    decreases t
  {
    hide Starts, Steady, SixInputs, Tick, Inv, Initial, Run, Truthful, Evaluates;
    SixRun(c);
    if t == 0 {
      StartsFresh(c);
    } else {
      RunIsSteady(c, t - 1);
      hide Before;
      var v := Before(c, Initial(c, Stand), SixInputs(c), t - 1);
      BeforeNext(c, Initial(c, Stand), SixInputs(c), t - 1);
      TickOfRun(c, v, t - 1);
      SteadyStarts(c, Tick(c, v, SixInputs(c)[t - 1]).worker, t);
    }
  }

  lemma SteadyStarts(c: Config, w: Worker, t: nat)
    requires t > 0 && Steady(c, w, t)
    ensures Starts(c, w, t)
  {
  }

  function Numbers(k: nat): seq<nat> { seq(k, x => x) }

  /** Every tick of the run is a strike of the last servo. */
  lemma {:induction false} EveryTickStrikes(c: Config, k: nat)
    requires ReadsInTurns(c) && k <= 6
    ensures Inv(c, Initial(c, Stand)) && |SixInputs(c)| == 6
    ensures StrikeTicks(c, Initial(c, Stand), SixInputs(c), k, c.ids[LastServo(c)]) == Numbers(k)
    decreases k
  {
    hide StrikeTicks, Before, Run, Initial, SixInputs, Starts, Inv;
    SixRun(c);
    if k == 0 {
      NoStrikesYet(c, Initial(c, Stand), SixInputs(c), c.ids[LastServo(c)]);
    } else {
      EveryTickStrikes(c, k - 1);
      RunIsSteady(c, k - 1);
      OneStrike(c, k - 1);
      assert Numbers(k) == Numbers(k - 1) + [k - 1];
    }
  }

  lemma LastIsLow(c: Config, states: ServoStates)
    requires ReadsInTurns(c) && AllKnown(c, states)
    ensures var known := TelemetryOf(states, c.ids[LastServo(c)]);
            known.Some? && LowVoltageSeen(c.safety, known.value)
  {
    assert TelemetryOf(states, c.ids[LastServo(c)]) == Some(TelemetryAt(c, LastServo(c)));
  }

  lemma OneStrike(c: Config, t: nat)
    requires ReadsInTurns(c) && t <= 5 && Inv(c, Initial(c, Stand)) && |SixInputs(c)| == 6
    requires Starts(c, Before(c, Initial(c, Stand), SixInputs(c), t), t)
    ensures var (w, id) := (Initial(c, Stand), c.ids[LastServo(c)]);
            StrikeTicks(c, w, SixInputs(c), t + 1, id) == StrikeTicks(c, w, SixInputs(c), t, id) + [t]
  {
    hide Starts, Steady, SixInputs, Tick, Inv, Initial, Run, Truthful, Evaluates, Before, AllKnown, SwitchMode,
      LowVoltageSeen, TelemetryOf;
    SixRun(c);
    var (w, inputs) := (Initial(c, Stand), SixInputs(c));
    var v := Before(c, w, inputs, t);
    BeforeNext(c, w, inputs, t);
    TickOfRun(c, v, t);
    StaysWithoutSwitch(v, inputs[t]);
    LastIsLow(c, Before(c, w, inputs, t + 1).states);
  }

  /** The reads of the run's first `k` ticks. */
  lemma {:induction false} ReadsOfRun(c: Config, k: nat)
    requires ReadsInTurns(c) && k <= 6
    ensures Inv(c, Initial(c, Stand)) && |SixInputs(c)| == 6
    ensures WindowReads(c, Initial(c, Stand), SixInputs(c), 0, k)
         == if k == 0 then 0 else |c.ids| + (k - 1) * LeastBudget(c)
    decreases k
  {
    SixRun(c);
    hide Starts, Tick, Inv, Evaluates, Before, TickReads, LeastBudget, Switches, SixInputs, Initial;
    if k > 0 {
      ReadsOfRun(c, k - 1);
      RunIsSteady(c, k - 1);
      TickOfRun(c, Before(c, Initial(c, Stand), SixInputs(c), k - 1), k - 1);
      if k > 1 {
        OneMoreTick(k - 2, LeastBudget(c));
      }
    }
  }

  /** No tick before the sixth trips; the sixth does. */
  lemma RunTripsInTheSixth(c: Config)
    requires ReadsInTurns(c)
    ensures Inv(c, Initial(c, Stand)) && |SixInputs(c)| == 6
    ensures forall t :: 0 <= t <= 5 ==> Before(c, Initial(c, Stand), SixInputs(c), t).motion.fault.None?
    ensures Before(c, Initial(c, Stand), SixInputs(c), 6).motion.fault == Some(LowVoltage(c.ids[LastServo(c)]))
  {
    SixRun(c);
    hide Initial, SixInputs, Steady, Inv, Run, Tick, Truthful;
    forall t | 0 <= t <= 5
      ensures Before(c, Initial(c, Stand), SixInputs(c), t).motion.fault.None?
    {
      RunIsSteady(c, t);
      StartsUnfaulted(c, Before(c, Initial(c, Stand), SixInputs(c), t), t);
    }
    RunIsSteady(c, 5);
    RunStep(c, Initial(c, Stand), SixInputs(c), 5);
    TickOfRun(c, Before(c, Initial(c, Stand), SixInputs(c), 5), 5);
  }

  lemma StartsUnfaulted(c: Config, w: Worker, t: nat)
    requires Starts(c, w, t)
    ensures w.motion.fault.None?
  {
  }

  /** Six strikes on `1 + 5 b / n` readings, fewer than six: no tick before the sixth trips, the
      sixth does, and of the six ticks the second has no reading of the servo at all. */
  lemma SixStrikesOnFewerReadings(c: Config)
    requires ReadsInTurns(c)
    ensures Inv(c, Initial(c, Stand)) && |SixInputs(c)| == 6
    ensures var (w, inputs, last) := (Initial(c, Stand), SixInputs(c), LastServo(c));
            && (forall t :: 0 <= t <= 5 ==> Before(c, w, inputs, t).motion.fault.None?)
            && Before(c, w, inputs, 6).motion.fault == Some(LowVoltage(c.ids[last]))
            && StrikeTicks(c, w, inputs, 6, c.ids[last]) == [0, 1, 2, 3, 4, 5]
            && |WindowAnswers(c, w, inputs, 0, 6, last)| == 1 + 5 * LeastBudget(c) / |c.ids| < 6
            && !OwnReading(c, w, inputs, 1, last)
  {
    hide Inv, Before, StrikeTicks, WindowAnswers, OwnReading, SixInputs, LeastBudget, Initial;
    RunTripsInTheSixth(c);
    EveryTickStrikes(c, 6);
    SixNumbers();
    ReadingsOfRun(c);
    SecondTickPassesBy(c);
  }

  lemma SixNumbers()
    ensures Numbers(6) == [0, 1, 2, 3, 4, 5]
  {
  }

  lemma ReadingsOfRun(c: Config)
    requires ReadsInTurns(c)
    ensures Inv(c, Initial(c, Stand)) && |SixInputs(c)| == 6
    ensures |WindowAnswers(c, Initial(c, Stand), SixInputs(c), 0, 6, LastServo(c))|
         == 1 + 5 * LeastBudget(c) / |c.ids| < 6
  {
    hide WindowAnswers, WindowReads, LeastBudget, Inv, Initial, SixInputs, Before, Run, Visits;
    SixRun(c);
    ReadsOfRun(c, 6);
    StartCursor(c);
    var (w, inputs, n, b) := (Initial(c, Stand), SixInputs(c), |c.ids|, LeastBudget(c));
    WindowAnswersAreVisits(c, w, inputs, 0, 6, n - 1);
    LapThenShare(n, b);
  }

  lemma StartCursor(c: Config)
    requires Inv(c, Initial(c, Stand))
    ensures Before(c, Initial(c, Stand), SixInputs(c), 0).cursor == 0
  {
  }

  lemma LapThenShare(n: nat, b: nat)
    requires b < n
    ensures Visits(0, n, n - 1, n + 5 * b) == 1 + 5 * b / n < 6
  {
    VisitsSplit(0, n, n - 1, n, 5 * b);
    LapVisitsAllOnce(0, n, n - 1);
    LastServoShare(n, 5 * b);
    DivisionBounds(5 * b, n);
    MultipleGrows(5, 5 * b / n, n);
  }

  /** From the start of a lap the last servo is read once each whole lap. */
  lemma LastServoShare(n: nat, m: nat)
    requires n > 0
    ensures Visits(0, n, n - 1, m) == m / n
  {
    LapsThenRest(n, m / n, m % n);
    assert m == m / n * n + m % n;
  }

  lemma {:induction false} LapsThenRest(n: nat, laps: nat, rest: nat)
    requires rest < n
    ensures Visits(0, n, n - 1, laps * n + rest) == laps
    decreases laps
  {
    if laps == 0 {
      VisitsWithinLap(0, n, n - 1, rest);
    } else {
      LapsThenRest(n, laps - 1, rest);
      LapVisitsAllOnce(0, n, n - 1);
      OneMoreTick(laps - 1, n);
      VisitsSplit(0, n, n - 1, n, (laps - 1) * n + rest);
    }
  }

  lemma BackAtStart(c: Config)
    requires c.ids != []
    ensures CursorAt(c, 1) == 0
  {
    assert CursorAt(c, 1) == Advance(0, |c.ids|, 0 * LeastBudget(c));
    AdvanceNone(0, |c.ids|);
  }

  lemma PassesBy(c: Config, v: Worker)
    requires ReadsInTurns(c) && Starts(c, v, 1)
    ensures TickAnswers(c, v, Truthful(c, CursorAt(c, 1)), LastServo(c)) == []
  {
    hide Advance, TickReads, LeastBudget, Starts, Answers, Visits, ReadyToPoll, Prepare, Truthful, CursorAt;
    var (n, i) := (|c.ids|, Truthful(c, CursorAt(c, 1)));
    TickPolls(c, v, 1);
    BackAtStart(c);
    VisitsWithinLap(0, n, n - 1, LeastBudget(c));
    AnswersAreVisits(0, n, n - 1, i.readings, LeastBudget(c));
  }

  lemma SecondTickPassesBy(c: Config)
    requires ReadsInTurns(c)
    ensures Inv(c, Initial(c, Stand)) && !OwnReading(c, Initial(c, Stand), SixInputs(c), 1, LastServo(c))
  {
    SixRun(c);
    RunIsSteady(c, 1);
    hide Initial, Starts, Inv, Before, Run, TickAnswers, CursorAt, Truthful;
    PassesBy(c, Before(c, Initial(c, Stand), SixInputs(c), 1));
  }

  /** With 18 servos and 6 reads a tick the six strikes come from two readings. */
  lemma SixStrikesOnTwoReadings(c: Config)
    requires Configured(c) && c.safety.minBusVoltageV > 0.0 && |c.ids| == 18 && c.telemetryStride == 6
    ensures Inv(c, Initial(c, Stand)) && |SixInputs(c)| == 6
    ensures var (w, inputs) := (Initial(c, Stand), SixInputs(c));
            && Before(c, w, inputs, 5).motion.fault.None?
            && Before(c, w, inputs, 6).motion.fault == Some(LowVoltage(c.ids[17]))
            && |StrikeTicks(c, w, inputs, 6, c.ids[17])| == 6
            && |WindowAnswers(c, w, inputs, 0, 6, 17)| == 2
  {
    assert LeastBudget(c) == 6;
    hide StrikeTicks, WindowAnswers, SixInputs, Inv, Before, Initial, LeastBudget, OwnReading;
    SixStrikesOnFewerReadings(c);
  }

  // --------------------------------------------------------------------- the exact condition

  lemma MissingReading(c: Config, w: Worker, inputs: seq<Input>, k: nat, j: nat, x: nat)
    requires Inv(c, w) && k <= |inputs| && j < |c.ids| && x < |StrikeTicks(c, w, inputs, k, c.ids[j])|
    requires !OwnReading(c, w, inputs, StrikeTicks(c, w, inputs, k, c.ids[j])[x], j)
    ensures !EachHasItsReading(c, w, inputs, k, j)
  {
    hide OwnReading, Inv;
  }

  /** In every run from start-up, whenever a servo has six strikes each has its own reading. */
  ghost predicate AlwaysItsReading(c: Config) {
    forall mode, inputs, k: nat, j: nat ::
      Inv(c, Initial(c, mode)) && k <= |inputs| && j < |c.ids|
      && |StrikeTicks(c, Initial(c, mode), inputs, k, c.ids[j])| >= 6
      ==> EachHasItsReading(c, Initial(c, mode), inputs, k, j)
  }

  lemma EnoughReadings(c: Config)
    requires LeastBudget(c) == |c.ids| || c.safety.minBusVoltageV <= 0.0
    ensures AlwaysItsReading(c)
  {
    hide StrikeTicks, EachHasItsReading, Inv, Initial, LeastBudget;
    forall mode, inputs, k: nat, j: nat |
        Inv(c, Initial(c, mode)) && k <= |inputs| && j < |c.ids|
        && |StrikeTicks(c, Initial(c, mode), inputs, k, c.ids[j])| >= 6
      ensures EachHasItsReading(c, Initial(c, mode), inputs, k, j)
    {
      if LeastBudget(c) == |c.ids| {
        WholeStrideReadsEachTime(c, Initial(c, mode), inputs, k, j);
      } else {
        NoLimitNoStrikes(c, Initial(c, mode), inputs, k, c.ids[j]);
      }
    }
  }

  lemma TooFewReadings(c: Config)
    requires ReadsInTurns(c)
    ensures !AlwaysItsReading(c)
  {
    hide StrikeTicks, WindowAnswers, SixInputs, Inv, Before, Initial, OwnReading, EachHasItsReading,
      LeastBudget, ReadsInTurns;
    SixStrikesOnFewerReadings(c);
    MissingReading(c, Initial(c, Stand), SixInputs(c), 6, LastServo(c), 1);
  }

  /** Each of the six strikes has a reading of its own, in every run, exactly when a tick reads
      all servos (the stride is at least their number), or when there is no voltage limit. */
  lemma EachStrikeHasItsReadingIff(c: Config)
    requires Configured(c)
    ensures AlwaysItsReading(c) <==> LeastBudget(c) == |c.ids| || c.safety.minBusVoltageV <= 0.0
  {
    hide AlwaysItsReading;
    if LeastBudget(c) == |c.ids| || c.safety.minBusVoltageV <= 0.0 {
      EnoughReadings(c);
    } else {
      TooFewReadings(c);
    }
  }
}
