/** Telemetry freshness over runs of the control worker. */
module PollRuns {
  import opened Results
  import opened Words
  import opened ServoPoll
  import opened Motion
  import opened Supervisor
  import opened SupervisorRuns

  /** The worker a tick polls with, when it gets that far. */
  function ReadyToPoll(w: Worker, i: Input): Flow {
    match OpenBus(SwitchMode(w, i), i)
    case Stop(w1) => Stop(w1)
    case Go(w1) => EnableTorque(w1, i)
  }

  /** How many servos a tick reads. */
  function TickReads(c: Config, w: Worker, i: Input): nat {
    if ReadyToPoll(w, i).Go? then Budgeted(ReadBudget(c, ReadyToPoll(w, i).worker, i)) else 0
  }

  /** The budget no polling tick goes below: the configured stride, held between one and all. */
  function LeastBudget(c: Config): nat {
    if c.telemetryStride < 1 then 1
    else if c.telemetryStride > |c.ids| then |c.ids|
    else c.telemetryStride
  }

  lemma BudgetAtLeast(c: Config, w: Worker, i: Input)
    requires c.ids != []
    ensures ReadBudget(c, w, i) >= LeastBudget(c) >= 1
  {
  }

  lemma StagesKeepCursor(c: Config, w: Worker, i: Input)
    ensures ReadyToPoll(w, i).worker.cursor == w.cursor
  {
  }

  lemma ActKeepsCursor(c: Config, w: Worker, i: Input)
    ensures Act(c, w, i).worker.cursor == w.cursor
  {
    hide CurrentPose, CheckSafety, Commands;
  }

  lemma TickMovesCursor(c: Config, w: Worker, i: Input)
    requires w.cursor < |c.ids|
    ensures Tick(c, w, i).worker.cursor == Advance(w.cursor, |c.ids|, TickReads(c, w, i))
  {
    StagesKeepCursor(c, w, i);
    PrepareIsPoll(c, w, i);
    hide Act, Prepare, Advance, ReadyToPoll;
    if ReadyToPoll(w, i).Go? && Prepare(c, w, i).Go? {
      ActKeepsCursor(c, Prepare(c, w, i).worker, i);
    }
    AdvanceNone(w.cursor, |c.ids|);
  }

  lemma PrepareIsPoll(c: Config, w: Worker, i: Input)
    requires w.cursor < |c.ids|
    ensures ReadyToPoll(w, i).Go? ==>
              Prepare(c, w, i).worker.cursor == Advance(w.cursor, |c.ids|, TickReads(c, w, i))
    ensures ReadyToPoll(w, i).Stop? ==> Prepare(c, w, i) == ReadyToPoll(w, i)
  {
    StagesKeepCursor(c, w, i);
    hide CurrentPose, Polled, WantsReopen;
  }

  lemma AdvanceNone(cursor: nat, n: nat)
    requires cursor < n
    ensures Advance(cursor, n, 0) == cursor
  {
  }

  lemma {:induction false} AdvanceAdds(cursor: nat, n: nat, k: nat, m: nat)
    requires cursor < n
    ensures Advance(cursor, n, k) < n
    ensures Advance(Advance(cursor, n, k), n, m) == Advance(cursor, n, k + m)
    decreases m
  {
    AdvanceInRange(cursor, n, k);
    if m > 0 {
      AdvanceAdds(cursor, n, k, m - 1);
    }
  }

  /** The answers servo number `j` gives in a tick, in order. */
  function TickAnswers(c: Config, w: Worker, i: Input, j: nat): seq<Reading> {
    Answers(w.cursor, |c.ids|, j, i.readings, TickReads(c, w, i))
  }

  lemma StagesKeepStates(w: Worker, i: Input)
    ensures ReadyToPoll(w, i).worker.states == w.states && ReadyToPoll(w, i).worker.cursor == w.cursor
  {
  }

  lemma ActKeepsStates(c: Config, w: Worker, i: Input)
    ensures Act(c, w, i).worker.states == w.states
  {
    hide CurrentPose, CheckSafety, Commands;
  }

  /** The telemetry a tick evaluates and leaves: of each servo its latest answer in this tick, or
      what was known before. */
  lemma TickLearns(c: Config, w: Worker, i: Input, j: nat)
    requires Configured(c) && w.cursor < |c.ids| && j < |c.ids|
    ensures TelemetryOf(Prepare(c, w, i).worker.states, c.ids[j])
         == LastKnown(TickAnswers(c, w, i, j), TelemetryOf(w.states, c.ids[j]))
    ensures Tick(c, w, i).worker.states == Prepare(c, w, i).worker.states
  {
    StagesKeepStates(w, i);
    PreparedStates(c, w, i);
    PolledIsLastAnswer(c.ids, w.states, w.cursor, i.readings, TickReads(c, w, i), j);
    hide Act, ReadyToPoll, Polled, Answers;
    ActKeepsStates(c, Prepare(c, w, i).worker, i);
  }

  lemma PreparedStates(c: Config, w: Worker, i: Input)
    requires w.cursor < |c.ids|
    ensures Prepare(c, w, i).worker.states == Polled(c.ids, w.states, w.cursor, i.readings, TickReads(c, w, i))
  {
    StagesKeepStates(w, i);
    hide CurrentPose, WantsReopen, Advance;
    PolledNone(c.ids, w.states, w.cursor, i.readings);
  }

  lemma PolledNone(ids: seq<u8>, states: ServoStates, cursor: nat, readings: nat -> Reading)
    requires cursor < |ids|
    ensures Polled(ids, states, cursor, readings, 0) == states
  {
  }

  // ------------------------------------------------------------------------- windows

  /** The reads of the `len` ticks of a run from tick `first` on. */
  ghost function WindowReads(c: Config, w: Worker, inputs: seq<Input>, first: nat, len: nat): nat
    requires Inv(c, w) && first + len <= |inputs|
    decreases len
  {
    if len == 0 then 0
    else WindowReads(c, w, inputs, first, len - 1)
         + TickReads(c, Before(c, w, inputs, first + len - 1), inputs[first + len - 1])
  }

  /** The answers of servo number `j` in the window, in order. */
  ghost function WindowAnswers(c: Config, w: Worker, inputs: seq<Input>, first: nat, len: nat, j: nat): seq<Reading>
    requires Inv(c, w) && first + len <= |inputs|
    decreases len
  {
    if len == 0 then []
    else WindowAnswers(c, w, inputs, first, len - 1, j)
         + TickAnswers(c, Before(c, w, inputs, first + len - 1), inputs[first + len - 1], j)
  }

  /** How many ticks of the window get as far as polling. */
  ghost function PollingTicks(c: Config, w: Worker, inputs: seq<Input>, first: nat, len: nat): nat
    requires Inv(c, w) && first + len <= |inputs|
    decreases len
  {
    if len == 0 then 0
    else PollingTicks(c, w, inputs, first, len - 1)
         + if ReadyToPoll(Before(c, w, inputs, first + len - 1), inputs[first + len - 1]).Go? then 1 else 0
  }

  lemma PollingReads(c: Config, w: Worker, i: Input)
    requires c.ids != []
    ensures TickReads(c, w, i) >= if ReadyToPoll(w, i).Go? then LeastBudget(c) else 0
  {
    hide ReadyToPoll, ReadBudget, LeastBudget;
    if ReadyToPoll(w, i).Go? {
      BudgetAtLeast(c, ReadyToPoll(w, i).worker, i);
    }
  }

  /** How many servos a polling tick reads, exactly: all of them while it records, only watches
      or is not armed; else as many as configured, at least one and at most all. */
  lemma TickReadsExactly(c: Config, w: Worker, i: Input)
    requires c.ids != [] && ReadyToPoll(w, i).Go?
    ensures var (n, m) := (|c.ids|, ReadyToPoll(w, i).worker.motion);
            TickReads(c, w, i)
            == if i.recordFrame || m.mode == Telemetry_ || m.armedAt.None? then n
               else if c.telemetryStride == 0 then 1
               else if c.telemetryStride < n then c.telemetryStride else n
  {
    hide ReadyToPoll;
  }

  lemma OneMoreTick(k: nat, least: nat)
    ensures (k + 1) * least == k * least + least
  {
  }

  /** Each polling tick adds at least the least budget. */
  lemma {:induction false} WindowAtLeast(c: Config, w: Worker, inputs: seq<Input>, first: nat, len: nat)
    requires Inv(c, w) && first + len <= |inputs| && c.ids != []
    ensures WindowReads(c, w, inputs, first, len) >= PollingTicks(c, w, inputs, first, len) * LeastBudget(c)
    decreases len
  {
    hide Before, Inv, ReadyToPoll, TickReads, LeastBudget;
    if len > 0 {
      WindowAtLeast(c, w, inputs, first, len - 1);
      PollingReads(c, Before(c, w, inputs, first + len - 1), inputs[first + len - 1]);
      OneMoreTick(PollingTicks(c, w, inputs, first, len - 1), LeastBudget(c));
    }
  }

  lemma RunStepInv(c: Config, w: Worker, inputs: seq<Input>, k: nat)
    requires Inv(c, w) && k <= |inputs|
    ensures Inv(c, Before(c, w, inputs, k)) && Before(c, w, inputs, k).cursor < |c.ids|
  {
  }

  lemma StepMovesCursor(c: Config, w: Worker, inputs: seq<Input>, k: nat)
    requires Inv(c, w) && k < |inputs|
    ensures Before(c, w, inputs, k).cursor < |c.ids|
    ensures Before(c, w, inputs, k + 1).cursor
         == Advance(Before(c, w, inputs, k).cursor, |c.ids|, TickReads(c, Before(c, w, inputs, k), inputs[k]))
  {
    RunStepInv(c, w, inputs, k);
    RunStep(c, w, inputs, k);
    hide Tick, TickReads;
    TickMovesCursor(c, Before(c, w, inputs, k), inputs[k]);
  }

  lemma StepLearns(c: Config, w: Worker, inputs: seq<Input>, k: nat, j: nat)
    requires Configured(c) && Inv(c, w) && k < |inputs| && j < |c.ids|
    ensures TelemetryOf(Before(c, w, inputs, k + 1).states, c.ids[j])
         == LastKnown(TickAnswers(c, Before(c, w, inputs, k), inputs[k], j),
                      TelemetryOf(Before(c, w, inputs, k).states, c.ids[j]))
  {
    RunStepInv(c, w, inputs, k);
    RunStep(c, w, inputs, k);
    hide Tick, TickAnswers, Prepare;
    TickLearns(c, Before(c, w, inputs, k), inputs[k], j);
  }

  /** Over any window of any run the cursor moves on by exactly the reads made. */
  lemma {:induction false} WindowMovesCursor(c: Config, w: Worker, inputs: seq<Input>, first: nat, len: nat)
    requires Inv(c, w) && first + len <= |inputs|
    ensures Before(c, w, inputs, first).cursor < |c.ids|
    ensures Before(c, w, inputs, first + len).cursor
         == Advance(Before(c, w, inputs, first).cursor, |c.ids|, WindowReads(c, w, inputs, first, len))
    decreases len
  {
    hide Before, Run, Inv, TickReads, Advance;
    RunStepInv(c, w, inputs, first);
    if len == 0 {
      AdvanceNone(Before(c, w, inputs, first).cursor, |c.ids|);
    } else {
      var last := first + len - 1;
      WindowMovesCursor(c, w, inputs, first, len - 1);
      StepMovesCursor(c, w, inputs, last);
      AdvanceAdds(Before(c, w, inputs, first).cursor, |c.ids|, WindowReads(c, w, inputs, first, len - 1),
                  TickReads(c, Before(c, w, inputs, last), inputs[last]));
    }
  }

  /** The answers of a servo in a window are as many as its visits by the cursor. */
  lemma {:induction false} WindowAnswersAreVisits(c: Config, w: Worker, inputs: seq<Input>, first: nat, len: nat,
                                                  j: nat)
    requires Inv(c, w) && first + len <= |inputs| && j < |c.ids|
    ensures |WindowAnswers(c, w, inputs, first, len, j)|
         == Visits(Before(c, w, inputs, first).cursor, |c.ids|, j, WindowReads(c, w, inputs, first, len))
    decreases len
  {
    hide Before, Run, Inv, TickReads, Advance;
    if len > 0 {
      var last := first + len - 1;
      var (cursor, earlier) := (Before(c, w, inputs, first).cursor, WindowReads(c, w, inputs, first, len - 1));
      WindowAnswersAreVisits(c, w, inputs, first, len - 1, j);
      WindowMovesCursor(c, w, inputs, first, len - 1);
      RunStepInv(c, w, inputs, last);
      var now := TickReads(c, Before(c, w, inputs, last), inputs[last]);
      AnswersAreVisits(Before(c, w, inputs, last).cursor, |c.ids|, j, inputs[last].readings, now);
      VisitsSplit(cursor, |c.ids|, j, earlier, now);
    }
  }

  /** What is known of a servo after a window is its latest answer in the window, or, without
      one, what was known before. */
  lemma {:induction false} WindowLearns(c: Config, w: Worker, inputs: seq<Input>, first: nat, len: nat, j: nat)
    requires Configured(c) && Inv(c, w) && first + len <= |inputs| && j < |c.ids|
    ensures TelemetryOf(Before(c, w, inputs, first + len).states, c.ids[j])
         == LastKnown(WindowAnswers(c, w, inputs, first, len, j),
                       TelemetryOf(Before(c, w, inputs, first).states, c.ids[j]))
    decreases len
  {
    hide Before, Run, Inv, TickAnswers, TelemetryOf;
    if len > 0 {
      WindowLearns(c, w, inputs, first, len - 1, j);
      StepLearns(c, w, inputs, first + len - 1, j);
    }
  }

  /** Freshness over runs: in any window of any run a servo answers at least `k b / n` times,
      where `k` ticks of the window get as far as polling and `b` is the configured stride held
      between one and `n`; and what is known of it afterwards is the last of these answers. */
  lemma ServoReadInWindow(c: Config, w: Worker, inputs: seq<Input>, first: nat, len: nat, j: nat)
    requires Configured(c) && Inv(c, w) && j < |c.ids| && first + len <= |inputs|
    ensures var answers := WindowAnswers(c, w, inputs, first, len, j);
            && |answers| >= PollingTicks(c, w, inputs, first, len) * LeastBudget(c) / |c.ids|
            && (answers != [] ==>
                  TelemetryOf(Before(c, w, inputs, first + len).states, c.ids[j]) == Known(answers[|answers| - 1]))
  {
    hide Inv, WindowAnswers, WindowReads, PollingTicks, Before, LeastBudget, TelemetryOf;
    WindowAtLeast(c, w, inputs, first, len);
    WindowAnswersAreVisits(c, w, inputs, first, len, j);
    WindowLearns(c, w, inputs, first, len, j);
    WindowMovesCursor(c, w, inputs, first, len);
    var total := WindowReads(c, w, inputs, first, len);
    AtLeastItsShare(Before(c, w, inputs, first).cursor, |c.ids|, j, total);
    QuotientGrows(PollingTicks(c, w, inputs, first, len) * LeastBudget(c), total, |c.ids|);
  }

  lemma QuotientGrows(a: nat, b: nat, n: nat)
    requires a <= b && n > 0
    ensures a / n <= b / n
  {
    DivisionBounds(a, n);
    DivisionBounds(b, n);
    MultipleGrows(b / n + 1, a / n, n);
    OneMoreTick(b / n, n);
  }

  /** In particular, after ceil(n / b) polling ticks every servo's telemetry comes from them. */
  lemma EveryServoReadInWindow(c: Config, w: Worker, inputs: seq<Input>, first: nat, len: nat, j: nat)
    requires Configured(c) && Inv(c, w) && j < |c.ids| && first + len <= |inputs|
    requires LeastBudget(c) > 0 && PollingTicks(c, w, inputs, first, len) >= CeilDiv(|c.ids|, LeastBudget(c))
    ensures var answers := WindowAnswers(c, w, inputs, first, len, j);
            answers != []
            && TelemetryOf(Before(c, w, inputs, first + len).states, c.ids[j]) == Known(answers[|answers| - 1])
  {
    hide Inv, WindowAnswers, PollingTicks, Before, LeastBudget, TelemetryOf;
    ServoReadInWindow(c, w, inputs, first, len, j);
    var (k, b, n) := (PollingTicks(c, w, inputs, first, len), LeastBudget(c), |c.ids|);
    CeilDivCovers(n, b);
    MultipleGrows(CeilDiv(n, b), k, b);
    QuotientGrows(n, k * b, n);
  }

  lemma DivisionBounds(a: nat, n: nat)
    requires n > 0
    ensures a / n * n <= a < a / n * n + n
  {
  }

  lemma MultipleGrows(x: nat, y: nat, b: nat)
    ensures x <= y ==> x * b <= y * b
  {
  }
}
