/** The round-robin telemetry poller of the control worker, and how fresh it keeps things. */
module ServoPoll {
  import opened Results
  import opened Words

  /** The telemetry that supervision looks at. */
  datatype Telemetry = Telemetry(positionTicks: u16, voltageV: real, temperatureC: Option<u8>)

  /** One answer of the servo bus; some errors call for reopening the bus. */
  datatype Reading = Online(telemetry: Telemetry) | Offline(reopen: bool)

  /** The last known telemetry per servo, absent while the servo is offline. */
  type ServoStates = map<u8, Option<Telemetry>>

  function Known(r: Reading): Option<Telemetry> {
    if r.Online? then Some(r.telemetry) else None
  }

  /** The cursor one read on, wrapping at the end. */
  function Next(cursor: nat, n: nat): nat {
    if cursor + 1 < n then cursor + 1 else 0
  }

  lemma NextIsModulo(cursor: nat, n: nat)
    requires cursor < n
    ensures cursor % n == cursor && (cursor + 1) % n == Next(cursor, n)
  {
    if cursor + 1 == n {
      assert (1 * n) % n == 0;
    }
  }

  /** The cursor after `k` reads. */
  function Advance(cursor: nat, n: nat, k: nat): nat
    decreases k
  {
    if k == 0 then cursor else Next(Advance(cursor, n, k - 1), n)
  }

  lemma {:induction false} AdvanceInRange(cursor: nat, n: nat, k: nat)
    requires cursor < n
    ensures Advance(cursor, n, k) < n
    decreases k
  {
    if k > 0 {
      AdvanceInRange(cursor, n, k - 1);
    }
  }

  function Polled(ids: seq<u8>, states: ServoStates, cursor: nat, readings: nat -> Reading, k: nat): ServoStates
    requires cursor < |ids|
    decreases k
  {
    if k == 0 then states
    else
      AdvanceInRange(cursor, |ids|, k - 1);
      Polled(ids, states, cursor, readings, k - 1)
        [ids[Advance(cursor, |ids|, k - 1)] := Known(readings(k - 1))]
  }

  predicate WantsReopen(readings: nat -> Reading, k: nat) {
    exists i :: 0 <= i < k && readings(i) == Offline(true)
  }

  function Budgeted(budget: nat): nat { if budget < 1 then 1 else budget }

  /** A budget of nothing reads one servo all the same. */
  lemma AtLeastOneRead(budget: nat)
    ensures Budgeted(budget) >= 1 && (budget == 0 || Budgeted(budget) == budget) && Budgeted(0) == 1
  {
  }

  method PollServoWindow(ids: seq<u8>, states: ServoStates, cursor: nat, budget: nat,
                         readings: nat -> Reading)
    returns (newStates: ServoStates, newCursor: nat, shouldReopen: bool)
    requires cursor < |ids|
    ensures newStates == Polled(ids, states, cursor, readings, Budgeted(budget))
    ensures newCursor == Advance(cursor, |ids|, Budgeted(budget)) < |ids|
    ensures shouldReopen <==> WantsReopen(readings, Budgeted(budget))
  {
    newStates, newCursor, shouldReopen := states, cursor, false;
    for i := 0 to Budgeted(budget)
      invariant newStates == Polled(ids, states, cursor, readings, i)
      invariant newCursor == Advance(cursor, |ids|, i) < |ids|
      invariant shouldReopen <==> WantsReopen(readings, i)
    {
      NextIsModulo(newCursor, |ids|);
      var id := ids[newCursor % |ids|];
      newCursor := (newCursor + 1) % |ids|;
      var reading := readings(i);
      if reading == Offline(true) {
        shouldReopen := true;
      }
      newStates := newStates[id := Known(reading)];
    }
  }

  // --------------------------------------------------------------------------- freshness

  /** How often servo number `j` is among the next `m` reads. */
  function Visits(cursor: nat, n: nat, j: nat, m: nat): nat
    decreases m
  {
    if m == 0 then 0 else (if cursor == j then 1 else 0) + Visits(Next(cursor, n), n, j, m - 1)
  }

  /** Reads until servo `j` comes up. */
  function Wait(cursor: nat, n: nat, j: nat): nat
    requires cursor < n && j < n
  {
    if j >= cursor then j - cursor else j + n - cursor
  }

  /** Within one lap servo `j` is read once, when its turn comes. */
  lemma {:induction false} VisitsWithinLap(cursor: nat, n: nat, j: nat, m: nat)
    requires cursor < n && j < n && m <= n
    ensures Visits(cursor, n, j, m) == if Wait(cursor, n, j) < m then 1 else 0
    decreases m
  {
    if m > 0 {
      VisitsWithinLap(Next(cursor, n), n, j, m - 1);
    }
  }

  lemma {:induction false} AdvanceWithinLap(cursor: nat, n: nat, k: nat)
    requires cursor < n && k <= n
    ensures Advance(cursor, n, k) == if cursor + k < n then cursor + k else cursor + k - n
    decreases k
  {
    if k > 0 {
      AdvanceWithinLap(cursor, n, k - 1);
    }
  }

  lemma {:induction false} AdvanceShift(cursor: nat, n: nat, k: nat)
    ensures Advance(Next(cursor, n), n, k) == Advance(cursor, n, k + 1)
    decreases k
  {
    if k > 0 {
      AdvanceShift(cursor, n, k - 1);
    }
  }

  lemma {:induction false} VisitsSplit(cursor: nat, n: nat, j: nat, k: nat, m: nat)
    ensures Visits(cursor, n, j, k + m) == Visits(cursor, n, j, k) + Visits(Advance(cursor, n, k), n, j, m)
    decreases k
  {
    if k > 0 {
      VisitsSplit(Next(cursor, n), n, j, k - 1, m);
      AdvanceShift(cursor, n, k - 1);
    }
  }

  /** Any `n` consecutive reads visit every servo exactly once and end where they began. */
  lemma LapVisitsAllOnce(cursor: nat, n: nat, j: nat)
    requires cursor < n && j < n
    ensures Visits(cursor, n, j, n) == 1
    ensures Advance(cursor, n, n) == cursor
  {
    VisitsWithinLap(cursor, n, j, n);
    AdvanceWithinLap(cursor, n, n);
  }

  lemma OneLapLess(laps: nat, n: nat)
    requires laps > 0
    ensures laps * n - n == (laps - 1) * n >= 0
  {
  }

  /** Of any `m` consecutive reads, servo `j` gets at least `m / n`, and at most one more
      than that when the laps do not come out even. */
  lemma {:induction false} FairShare(cursor: nat, n: nat, j: nat, m: nat, laps: nat, rest: nat)
    requires cursor < n && j < n && m == laps * n + rest && rest < n
    ensures laps <= Visits(cursor, n, j, m) <= laps + (if rest > 0 then 1 else 0)
    decreases laps
  {
    if laps == 0 {
      VisitsWithinLap(cursor, n, j, m);
    } else {
      OneLapLess(laps, n);
      LapVisitsAllOnce(cursor, n, j);
      VisitsSplit(cursor, n, j, n, m - n);
      FairShare(cursor, n, j, m - n, laps - 1, rest);
    }
  }

  /** The reads of several consecutive ticks, given each tick's budget. */
  function TotalReads(budgets: seq<nat>): nat
    decreases |budgets|
  {
    if budgets == [] then 0 else Budgeted(budgets[0]) + TotalReads(budgets[1..])
  }

  lemma {:induction false} TotalAtLeast(budgets: seq<nat>, least: nat)
    requires forall k :: 0 <= k < |budgets| ==> budgets[k] >= least
    ensures TotalReads(budgets) >= |budgets| * least
    decreases |budgets|
  {
    if budgets != [] {
      TotalAtLeast(budgets[1..], least);
      assert |budgets| * least == least + |budgets[1..]| * least;
    }
  }

  function CeilDiv(n: nat, d: nat): nat
    requires d > 0
  {
    (n + d - 1) / d
  }

  lemma CeilDivCovers(n: nat, d: nat)
    requires d > 0
    ensures CeilDiv(n, d) * d >= n
  {
    var m := n + d - 1;
    assert m == m / d * d + m % d;
  }

  /** Wherever the cursor stands, ceil(n / least) consecutive ticks, each reading at least
      `least` servos, read every one of the `n` servos at least once. */
  lemma EveryServoFresh(cursor: nat, n: nat, j: nat, budgets: seq<nat>, least: nat)
    requires cursor < n && j < n && least > 0
    requires |budgets| == CeilDiv(n, least)
    requires forall k :: 0 <= k < |budgets| ==> budgets[k] >= least
    ensures Visits(cursor, n, j, TotalReads(budgets)) >= 1
  {
    TotalAtLeast(budgets, least);
    CeilDivCovers(n, least);
    VisitsSplit(cursor, n, j, n, TotalReads(budgets) - n);
    LapVisitsAllOnce(cursor, n, j);
  }

  /** Of any `m` consecutive reads a servo gets at least `m / n`. */
  lemma AtLeastItsShare(cursor: nat, n: nat, j: nat, m: nat)
    requires cursor < n && j < n
    ensures Visits(cursor, n, j, m) >= m / n
  {
    assert m == m / n * n + m % n;
    FairShare(cursor, n, j, m, m / n, m % n);
  }

  // ---------------------------------------------------------------- what the reads answer

  /** The answers servo number `j` gives in the next `m` reads, in order. */
  function Answers(cursor: nat, n: nat, j: nat, readings: nat -> Reading, m: nat): seq<Reading>
    decreases m
  {
    if m == 0 then []
    else Answers(cursor, n, j, readings, m - 1)
         + if Advance(cursor, n, m - 1) == j then [readings(m - 1)] else []
  }

  lemma {:induction false} AnswersAreVisits(cursor: nat, n: nat, j: nat, readings: nat -> Reading, m: nat)
    requires cursor < n && j < n
    ensures |Answers(cursor, n, j, readings, m)| == Visits(cursor, n, j, m)
    decreases m
  {
    if m > 0 {
      AnswersAreVisits(cursor, n, j, readings, m - 1);
      VisitsSplit(cursor, n, j, m - 1, 1);
      AdvanceInRange(cursor, n, m - 1);
      assert Visits(Advance(cursor, n, m - 1), n, j, 1) == if Advance(cursor, n, m - 1) == j then 1 else 0;
    }
  }

  function LastKnown(answers: seq<Reading>, before: Option<Telemetry>): Option<Telemetry> {
    if answers == [] then before else Known(answers[|answers| - 1])
  }

  function TelemetryOf(states: ServoStates, id: u8): Option<Telemetry> {
    if id in states then states[id] else None
  }

  /** What is known of a servo after any number of reads is its latest answer among them, or
      what was known before. */
  lemma {:induction false} PolledIsLastAnswer(ids: seq<u8>, states: ServoStates, cursor: nat,
                                              readings: nat -> Reading, m: nat, j: nat)
    requires Distinct(ids) && cursor < |ids| && j < |ids|
    ensures TelemetryOf(Polled(ids, states, cursor, readings, m), ids[j])
         == LastKnown(Answers(cursor, |ids|, j, readings, m), TelemetryOf(states, ids[j]))
    decreases m
  {
    if m > 0 {
      PolledIsLastAnswer(ids, states, cursor, readings, m - 1, j);
      AdvanceInRange(cursor, |ids|, m - 1);
      var a := Advance(cursor, |ids|, m - 1);
      assert a != j ==> ids[a] != ids[j];
    }
  }

  /** What is known of each servo after part of a lap: the answer to its own read once its
      turn has come, and what was known before until then. */
  lemma {:induction false} PolledWithinLap(ids: seq<u8>, states: ServoStates, cursor: nat,
                                           readings: nat -> Reading, k: nat, j: nat)
    requires Distinct(ids) && cursor < |ids| && j < |ids| && k <= |ids|
    requires ids[j] in states
    ensures var after := Polled(ids, states, cursor, readings, k);
            ids[j] in after
            && after[ids[j]] == if Wait(cursor, |ids|, j) < k then Known(readings(Wait(cursor, |ids|, j)))
                                else states[ids[j]]
    decreases k
  {
    if k > 0 {
      PolledWithinLap(ids, states, cursor, readings, k - 1, j);
      AdvanceWithinLap(cursor, |ids|, k - 1);
    }
  }
}
