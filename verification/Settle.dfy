/** Waiting for servos to stop: each servo on its own (`wait_for_servos_to_settle`), or all of
    them at the same poll after motion was seen (`wait_for_group_stop`).

    A bus answers reads from a script and logs them; elapsed time is a function of the poll. */
module Settle {
  import opened Results
  import opened Words

  const MOTION_START_TICKS: u16 := 24

  datatype Telemetry = Telemetry(positionTicks: u16, speedTicks: i16, moving: bool)

  datatype Answer = Got(telemetry: Telemetry) | Failed

  /** One read in the log: the servo asked and its answer. */
  datatype Entry = Entry(id: u8, answer: Answer)

  type Log = seq<Entry>

  datatype Params = Params(stopSpeedTicks: u16, confirmStoppedSamples: u8, timeoutMs: nat)

  datatype WaitError = ReadFailed(id: u8) | ProbeTimeout(elapsedMs: nat, lingering: seq<u8>)

  predicate HasStopped(t: Telemetry, stopSpeedTicks: u16) {
    !t.moving || Magnitude(t.speedTicks) <= stopSpeedTicks
  }

  class FeedbackBus {
    const answers: nat -> Answer
    var log: Log

    constructor (answers: nat -> Answer)
      ensures this.answers == answers && log == []
    {
      this.answers := answers;
      log := [];
    }

    method ReadFeedback(id: u8) returns (a: Answer)
      modifies this
      ensures a == answers(|old(log)|)
      ensures log == old(log) + [Entry(id, a)]
    {
      a := answers(|log|);
      log := log + [Entry(id, a)];
    }
  }

  // ------------------------------------------------------------------ reading the log

  /** How many of a servo's latest reads, in unbroken succession, found it stopped. */
  function StopRun(log: Log, id: u8, stopSpeedTicks: u16): nat
    decreases |log|
  {
    if log == [] then 0
    else
      var (before, last) := (log[..|log| - 1], log[|log| - 1]);
      if last.id != id then StopRun(before, id, stopSpeedTicks)
      else if last.answer.Got? && HasStopped(last.answer.telemetry, stopSpeedTicks)
      then StopRun(before, id, stopSpeedTicks) + 1
      else 0
  }

  /** A servo's latest telemetry. */
  function LastOf(log: Log, id: u8): Option<Telemetry>
    decreases |log|
  {
    if log == [] then None
    else if log[|log| - 1].id == id && log[|log| - 1].answer.Got? then Some(log[|log| - 1].answer.telemetry)
    else LastOf(log[..|log| - 1], id)
  }

  /** The answers a servo gave, in order. */
  function ReadsOf(log: Log, id: u8): seq<Answer>
    decreases |log|
  {
    if log == [] then []
    else if log[|log| - 1].id == id then ReadsOf(log[..|log| - 1], id) + [log[|log| - 1].answer]
    else ReadsOf(log[..|log| - 1], id)
  }

  predicate Stopped(a: Answer, stopSpeedTicks: u16) { a.Got? && HasStopped(a.telemetry, stopSpeedTicks) }

  /** A run of `n` says that a servo has been read `n` times and was stopped each of the last
      `n` times. */
  lemma {:induction false} StopRunMeans(log: Log, id: u8, stop: u16, n: nat)
    ensures StopRun(log, id, stop) >= n <==>
              n <= |ReadsOf(log, id)|
              && forall k :: |ReadsOf(log, id)| - n <= k < |ReadsOf(log, id)| ==> Stopped(ReadsOf(log, id)[k], stop)
    decreases |log|
  {
    if log != [] && n > 0 {
      var before := log[..|log| - 1];
      if log[|log| - 1].id == id {
        StopRunMeans(before, id, stop, n - 1);
        var (reads0, all) := (ReadsOf(before, id), ReadsOf(log, id));
        assert all[|all| - 1] == log[|log| - 1].answer;
        assert forall k :: 0 <= k < |reads0| ==> all[k] == reads0[k];
      } else {
        StopRunMeans(before, id, stop, n);
      }
    }
  }

  function Needed(p: Params): nat { if p.confirmStoppedSamples < 1 then 1 else p.confirmStoppedSamples }

  predicate Settled(log: Log, id: u8, p: Params) { StopRun(log, id, p.stopSpeedTicks) >= Needed(p) }

  /** No servo is read after it settled. */
  ghost predicate NoneReadOnceSettled(log: Log, p: Params) {
    forall n :: 0 <= n < |log| ==> !Settled(log[..n], log[n].id, p)
  }

  function Unsettled(ids: seq<u8>, log: Log, p: Params): seq<u8>
    decreases |ids|
  {
    if ids == [] then []
    else if Settled(log, ids[0], p) then Unsettled(ids[1..], log, p)
    else [ids[0]] + Unsettled(ids[1..], log, p)
  }

  // ----------------------------------------------------------------------- bookkeeping

  /** What the counts and the settled map say about the log. */
  ghost predicate Booked(log: Log, ids: seq<u8>, p: Params, counts: map<u8, u8>, settled: map<u8, Telemetry>) {
    && settled.Keys <= IdSet(ids) && counts.Keys == IdSet(ids)
    && forall id :: id in ids ==>
         && (id in settled <==> Settled(log, id, p))
         && (id in settled ==> LastOf(log, id) == Some(settled[id]))
         && (id !in settled ==> counts[id] == StopRun(log, id, p.stopSpeedTicks))
  }

  ghost function IdSet(ids: seq<u8>): set<u8> { set id | id in ids }

  /** A read changes the record of no other servo. */
  lemma ReadLeavesOthers(log: Log, e: Entry, id: u8, p: Params)
    requires e.id != id
    ensures StopRun(log + [e], id, p.stopSpeedTicks) == StopRun(log, id, p.stopSpeedTicks)
    ensures LastOf(log + [e], id) == LastOf(log, id)
  {
    assert (log + [e])[..|log|] == log;
  }

  lemma ReadCounts(log: Log, id: u8, t: Telemetry, p: Params)
    ensures StopRun(log + [Entry(id, Got(t))], id, p.stopSpeedTicks)
         == if HasStopped(t, p.stopSpeedTicks) then StopRun(log, id, p.stopSpeedTicks) + 1 else 0
    ensures LastOf(log + [Entry(id, Got(t))], id) == Some(t)
  {
    assert (log + [Entry(id, Got(t))])[..|log|] == log;
  }

  lemma BookRead(log: Log, ids: seq<u8>, p: Params, counts: map<u8, u8>, settled: map<u8, Telemetry>,
                 id: u8, t: Telemetry, counts1: map<u8, u8>, settled1: map<u8, Telemetry>)
    requires Booked(log, ids, p, counts, settled) && id in ids && id !in settled
    requires counts1 == counts[id := if HasStopped(t, p.stopSpeedTicks) then counts[id] + 1 else 0]
    requires settled1 == if HasStopped(t, p.stopSpeedTicks) && counts1[id] >= p.confirmStoppedSamples
                         then settled[id := t] else settled
    ensures Booked(log + [Entry(id, Got(t))], ids, p, counts1, settled1)
  {
    var e := Entry(id, Got(t));
    ReadCounts(log, id, t, p);
    forall other | other in ids && other != id
      ensures StopRun(log + [e], other, p.stopSpeedTicks) == StopRun(log, other, p.stopSpeedTicks)
           && LastOf(log + [e], other) == LastOf(log, other)
    {
      ReadLeavesOthers(log, e, other, p);
    }
  }

  lemma ReadOnlyUnsettled(log: Log, e: Entry, p: Params)
    requires NoneReadOnceSettled(log, p) && !Settled(log, e.id, p)
    ensures NoneReadOnceSettled(log + [e], p)
  {
    forall n | 0 <= n < |log + [e]|
      ensures !Settled((log + [e])[..n], (log + [e])[n].id, p)
    {
      assert (log + [e])[..n] == log[..n];
      assert log[..|log|] == log;
    }
  }

  // ------------------------------------------------------------------------- counting

  lemma {:induction false} IdSetSize(ids: seq<u8>)
    ensures |IdSet(ids)| <= |ids|
    ensures |IdSet(ids)| == |ids| <==> Distinct(ids)
    decreases |ids|
  {
    if ids != [] {
      IdSetSize(ids[1..]);
      assert IdSet(ids) == {ids[0]} + IdSet(ids[1..]);
      if Distinct(ids) {
        assert ids[0] !in ids[1..];
      }
    } else {
      assert IdSet(ids) == {};
    }
  }

  lemma SubsetSize(a: set<u8>, b: set<u8>)
    requires a <= b
    ensures |a| <= |b|
    ensures |a| == |b| ==> a == b
  {
    assert b == a + (b - a);
  }

  /** The map is as long as the list exactly when the list has no duplicates and all of it has
      settled. */
  lemma AllSettledIff(ids: seq<u8>, settled: map<u8, Telemetry>)
    requires settled.Keys <= IdSet(ids)
    ensures |settled| == |ids| <==> Distinct(ids) && settled.Keys == IdSet(ids)
  {
    IdSetSize(ids);
    SubsetSize(settled.Keys, IdSet(ids));
  }

  lemma {:induction false} UnsettledMeans(ids: seq<u8>, log: Log, p: Params)
    ensures forall id :: id in Unsettled(ids, log, p) <==> id in ids && !Settled(log, id, p)
    decreases |ids|
  {
    if ids != [] {
      UnsettledMeans(ids[1..], log, p);
      hide Settled;
      assert ids == [ids[0]] + ids[1..];
    }
  }

  // -------------------------------------------------------------------------- the loop

  predicate LostRead(log: Log) { log != [] && log[|log| - 1].answer.Failed? }

  /** One poll from number `i` of the list on: every servo not settled by then is read, up to a
      read that fails. `base` counts the reads the bus answered before the wait. */
  function PollLog(answers: nat -> Answer, base: nat, ids: seq<u8>, i: nat, seen: Log, p: Params): Log
    requires i <= |ids|
    decreases |ids| - i
  {
    if i == |ids| then seen
    else if Settled(seen, ids[i], p) then PollLog(answers, base, ids, i + 1, seen, p)
    else
      var read := seen + [Entry(ids[i], answers(base + |seen|))];
      if LostRead(read) then read else PollLog(answers, base, ids, i + 1, read, p)
  }

  /** The reads of the first `n` polls. */
  function LogAfter(answers: nat -> Answer, base: nat, ids: seq<u8>, n: nat, p: Params): Log {
    if n == 0 then []
    else
      var seen := LogAfter(answers, base, ids, n - 1, p);
      if LostRead(seen) then seen else PollLog(answers, base, ids, 0, seen, p)
  }

  /** One poll reads, of the list from number `i` on, only servos that have not settled by their
      turn; a read that fails is its last. */
  lemma {:induction false} PollReads(answers: nat -> Answer, base: nat, ids: seq<u8>, i: nat, seen: Log, p: Params)
    requires i <= |ids| && !LostRead(seen)
    ensures var log := PollLog(answers, base, ids, i, seen, p);
            && seen <= log
            && forall k :: |seen| <= k < |log| ==>
                 log[k].id in ids[i..] && log[k].answer == answers(base + k) && !Settled(log[..k], log[k].id, p)
                 && (log[k].answer.Failed? ==> k == |log| - 1)
    decreases |ids| - i
  {
    hide Settled;
    if i < |ids| {
      assert ids[i..] == [ids[i]] + ids[i + 1..];
      if Settled(seen, ids[i], p) {
        PollReads(answers, base, ids, i + 1, seen, p);
      } else {
        var read := seen + [Entry(ids[i], answers(base + |seen|))];
        assert read[..|seen|] == seen;
        if !LostRead(read) {
          PollReads(answers, base, ids, i + 1, read, p);
          var log := PollLog(answers, base, ids, i, seen, p);
          assert log[|seen|] == read[|seen|] && log[..|seen|] == read[..|seen|];
        }
      }
    }
  }

  /** A poll without a lost read leaves none of them out. */
  lemma {:induction false} PollReadsAll(answers: nat -> Answer, base: nat, ids: seq<u8>, i: nat, seen: Log, p: Params,
                                        j: nat)
    requires i <= j < |ids| && !LostRead(seen) && !LostRead(PollLog(answers, base, ids, i, seen, p))
    ensures var log := PollLog(answers, base, ids, i, seen, p);
            Settled(seen, ids[j], p) || exists k :: |seen| <= k < |log| && log[k].id == ids[j]
    decreases |ids| - i
  {
    hide Settled;
    var log := PollLog(answers, base, ids, i, seen, p);
    if Settled(seen, ids[i], p) {
      if i < j {
        PollReadsAll(answers, base, ids, i + 1, seen, p, j);
      }
    } else {
      var read := seen + [Entry(ids[i], answers(base + |seen|))];
      PollReads(answers, base, ids, i + 1, read, p);
      assert log[|seen|] == read[|seen|];
      OtherRunsStay(seen, read[|seen|], ids[j], p);
      if i < j && ids[j] != ids[i] {
        PollReadsAll(answers, base, ids, i + 1, read, p, j);
      }
    }
  }

  lemma OtherRunsStay(seen: Log, e: Entry, id: u8, p: Params)
    ensures e.id != id ==> (Settled(seen + [e], id, p) <==> Settled(seen, id, p))
  {
    assert (seen + [e])[..|seen|] == seen;
  }

  /** As many servos have settled as the list is long. */
  ghost predicate Complete(log: Log, ids: seq<u8>, p: Params) {
    Distinct(ids) && forall id :: id in ids ==> Settled(log, id, p)
  }

  /** Poll `n` leaves the wait going on. */
  ghost predicate GoesOn(answers: nat -> Answer, base: nat, ids: seq<u8>, p: Params, elapsedMs: nat -> nat, n: nat)
    requires n > 0
  {
    var log := LogAfter(answers, base, ids, n, p);
    !LostRead(log) && !Complete(log, ids, p) && elapsedMs(n - 1) <= p.timeoutMs
  }

  /** The result that ends a wait with the given reads and time. */
  ghost predicate Outcome(r: Result<map<u8, Telemetry>, WaitError>, ids: seq<u8>, log: Log, elapsed: nat, p: Params) {
    match r
    case Ok(settled) =>
      && !LostRead(log) && Complete(log, ids, p)
      && settled.Keys == IdSet(ids) && forall id :: id in ids ==> LastOf(log, id) == Some(settled[id])
    case Err(ReadFailed(id)) => log != [] && log[|log| - 1] == Entry(id, Failed)
    case Err(ProbeTimeout(ms, lingering)) =>
      && !LostRead(log) && !Complete(log, ids, p)
      && ms == elapsed > p.timeoutMs
      && lingering == Unsettled(ids, log, p)
  }

  /** The wait ends at poll `n`, and not before, with the result `r`. */
  ghost predicate WaitEnds(answers: nat -> Answer, base: nat, ids: seq<u8>, p: Params, elapsedMs: nat -> nat,
                           n: nat, r: Result<map<u8, Telemetry>, WaitError>)
  {
    && n > 0
    && (forall m :: 0 < m < n ==> GoesOn(answers, base, ids, p, elapsedMs, m))
    && Outcome(r, ids, LogAfter(answers, base, ids, n, p), elapsedMs(n - 1), p)
  }

  /** The part of a log since entry number `start`. */
  ghost function Since(log: Log, start: nat): Log
    requires start <= |log|
  {
    log[start..]
  }

  lemma SinceGrows(log: Log, start: nat, e: Entry)
    requires start <= |log|
    ensures Since(log + [e], start) == Since(log, start) + [e]
    ensures start + |Since(log, start)| == |log|
  {
  }

  lemma BookedServo(log: Log, ids: seq<u8>, p: Params, counts: map<u8, u8>, settled: map<u8, Telemetry>, id: u8)
    requires Booked(log, ids, p, counts, settled) && id in ids
    ensures id in settled <==> Settled(log, id, p)
    ensures id !in settled ==> id in counts && counts[id] < 255
  {
  }

  /** One servo's turn in a poll. */
  method ReadUnsettled(bus: FeedbackBus, ids: seq<u8>, id: u8, p: Params, ghost start: nat,
                       counts0: map<u8, u8>, settled0: map<u8, Telemetry>)
    returns (failed: bool, counts: map<u8, u8>, settled: map<u8, Telemetry>)
    requires start <= |bus.log| && id in ids && id !in settled0
    requires Booked(Since(bus.log, start), ids, p, counts0, settled0) && NoneReadOnceSettled(Since(bus.log, start), p)
    modifies bus
    ensures old(bus.log) < bus.log && NoneReadOnceSettled(Since(bus.log, start), p)
    ensures var (seen, answer) := (Since(old(bus.log), start), bus.answers(|old(bus.log)|));
            && start + |seen| == |old(bus.log)|
            && Since(bus.log, start) == seen + [Entry(id, answer)]
            && (failed <==> answer.Failed?)
    ensures !failed ==> Booked(Since(bus.log, start), ids, p, counts, settled)
  {
    hide Booked, NoneReadOnceSettled, Settled, Since, Distinct;
    counts, settled := counts0, settled0;
    ghost var seen := Since(bus.log, start);
    BookedServo(seen, ids, p, counts, settled, id);
    var answer := bus.ReadFeedback(id);
    SinceGrows(old(bus.log), start, Entry(id, answer));
    ReadOnlyUnsettled(seen, Entry(id, answer), p);
    if answer.Failed? {
      return true, counts, settled;
    }
    if HasStopped(answer.telemetry, p.stopSpeedTicks) {
      counts := counts[id := if counts[id] < 255 then counts[id] + 1 else 255];
      if counts[id] >= p.confirmStoppedSamples {
        settled := settled[id := answer.telemetry];
      }
    } else {
      counts := counts[id := 0];
    }
    BookRead(seen, ids, p, counts0, settled0, id, answer.telemetry, counts, settled);
    failed := false;
  }

  /** One poll over the servos not yet settled. */
  method PollOnce(bus: FeedbackBus, ids: seq<u8>, p: Params, ghost start: nat,
                  counts0: map<u8, u8>, settled0: map<u8, Telemetry>)
    returns (failed: Option<u8>, counts: map<u8, u8>, settled: map<u8, Telemetry>)
    requires start <= |bus.log| && !LostRead(Since(bus.log, start))
    requires Booked(Since(bus.log, start), ids, p, counts0, settled0) && NoneReadOnceSettled(Since(bus.log, start), p)
    modifies bus
    ensures old(bus.log) <= bus.log && NoneReadOnceSettled(Since(bus.log, start), p)
    ensures Since(bus.log, start) == PollLog(bus.answers, start, ids, 0, Since(old(bus.log), start), p)
    ensures failed.None? ==> !LostRead(Since(bus.log, start)) && Booked(Since(bus.log, start), ids, p, counts, settled)
    ensures failed.Some? ==>
              var log := Since(bus.log, start); log != [] && log[|log| - 1] == Entry(failed.value, Failed)
  {
    hide Booked, NoneReadOnceSettled, Settled, Since;
    counts, settled := counts0, settled0;
    for i := 0 to |ids|
      invariant old(bus.log) <= bus.log && NoneReadOnceSettled(Since(bus.log, start), p)
      invariant !LostRead(Since(bus.log, start)) && Booked(Since(bus.log, start), ids, p, counts, settled)
      invariant PollLog(bus.answers, start, ids, i, Since(bus.log, start), p)
             == PollLog(bus.answers, start, ids, 0, Since(old(bus.log), start), p)
    {
      var id := ids[i];
      BookedServo(Since(bus.log, start), ids, p, counts, settled, id);
      if id !in settled {
        var lost;
        lost, counts, settled := ReadUnsettled(bus, ids, id, p, start, counts, settled);
        if lost {
          return Some(id), counts, settled;
        }
      }
    }
    return None, counts, settled;
  }

  lemma FirstBook(log: Log, ids: seq<u8>, p: Params)
    ensures Since(log, |log|) == []
    ensures Booked([], ids, p, map id | id in ids :: 0, map[]) && NoneReadOnceSettled([], p)
  {
  }

  /** `elapsedMs(n - 1)` is the time read after poll `n`; some poll comes after the timeout. The
      reads made are those of `n` polls, and the wait ends there. */
  method WaitForServosToSettle(bus: FeedbackBus, ids: seq<u8>, p: Params, elapsedMs: nat -> nat, ghost lastPoll: nat)
    returns (r: Result<map<u8, Telemetry>, WaitError>, n: nat)
    requires elapsedMs(lastPoll) > p.timeoutMs
    modifies bus
    ensures old(bus.log) <= bus.log
    ensures Since(bus.log, |old(bus.log)|) == LogAfter(bus.answers, |old(bus.log)|, ids, n, p)
    ensures WaitEnds(bus.answers, |old(bus.log)|, ids, p, elapsedMs, n, r)
    ensures NoneReadOnceSettled(Since(bus.log, |old(bus.log)|), p)
    ensures !Distinct(ids) ==> r.Err?
  {
    hide Booked, NoneReadOnceSettled, Settled, Since, Complete, Distinct, PollLog, Unsettled, Lingering;
    ghost var start := |bus.log|;
    var counts: map<u8, u8> := map id | id in ids :: 0;
    var settled: map<u8, Telemetry> := map[];
    FirstBook(bus.log, ids, p);
    n := 0;
    while true
      invariant n <= lastPoll
      invariant old(bus.log) <= bus.log && NoneReadOnceSettled(Since(bus.log, start), p)
      invariant Since(bus.log, start) == LogAfter(bus.answers, start, ids, n, p)
      invariant !LostRead(Since(bus.log, start)) && Booked(Since(bus.log, start), ids, p, counts, settled)
      invariant forall m :: 0 < m <= n ==> GoesOn(bus.answers, start, ids, p, elapsedMs, m)
      decreases lastPoll - n
    {
      var failed;
      failed, counts, settled := PollOnce(bus, ids, p, start, counts, settled);
      n := n + 1;
      if failed.Some? {
        return Err(ReadFailed(failed.value)), n;
      }
      CompleteIff(Since(bus.log, start), ids, p, counts, settled);
      if |settled| == |ids| {
        return Ok(settled), n;
      }
      if elapsedMs(n - 1) > p.timeoutMs {
        return Err(ProbeTimeout(elapsedMs(n - 1), Lingering(ids, settled))), n;
      }
      assert GoesOn(bus.answers, start, ids, p, elapsedMs, n);
    }
  }

  lemma CompleteIff(log: Log, ids: seq<u8>, p: Params, counts: map<u8, u8>, settled: map<u8, Telemetry>)
    requires Booked(log, ids, p, counts, settled)
    ensures |settled| == |ids| <==> Complete(log, ids, p)
    ensures |settled| == |ids| ==> Distinct(ids)
    ensures |settled| == |ids| ==>
              settled.Keys == IdSet(ids) && forall id :: id in ids ==> LastOf(log, id) == Some(settled[id])
    ensures Lingering(ids, settled) == Unsettled(ids, log, p)
  {
    AllSettledIff(ids, settled);
    LingeringIsUnsettled(ids, settled, ids, log, p, counts);
    if Complete(log, ids, p) {
      assert forall id :: id in IdSet(ids) ==> id in settled;
    }
  }

  function Lingering(ids: seq<u8>, settled: map<u8, Telemetry>): seq<u8>
    decreases |ids|
  {
    if ids == [] then []
    else (if ids[0] in settled then [] else [ids[0]]) + Lingering(ids[1..], settled)
  }

  lemma {:induction false} LingeringIsUnsettled(some: seq<u8>, settled: map<u8, Telemetry>, ids: seq<u8>, log: Log,
                                                p: Params, counts: map<u8, u8>)
    requires Booked(log, ids, p, counts, settled)
    requires forall id :: id in some ==> id in ids
    ensures Lingering(some, settled) == Unsettled(some, log, p)
    decreases |some|
  {
    if some != [] {
      LingeringIsUnsettled(some[1..], settled, ids, log, p, counts);
      assert some[0] in ids;
      hide Settled, Booked;
    }
  }

  /** A timeout names nobody exactly when every servo of the list had in fact settled, which a
      timeout allows only for a list with a duplicate. */
  lemma NobodyLingersIff(ids: seq<u8>, log: Log, elapsed: nat, p: Params, lingering: seq<u8>)
    requires Outcome(Err(ProbeTimeout(elapsed, lingering)), ids, log, elapsed, p)
    ensures lingering == [] <==> !Distinct(ids) && forall id :: id in ids ==> Settled(log, id, p)
  {
    UnsettledMeans(ids, log, p);
    hide Settled;
    if lingering == [] {
      forall id | id in ids
        ensures Settled(log, id, p)
      {
        assert id !in Unsettled(ids, log, p);
      }
    } else {
      assert lingering[0] in Unsettled(ids, log, p);
    }
  }

  /** A wait ends in one way only. */
  lemma WaitEndsOnce(answers: nat -> Answer, base: nat, ids: seq<u8>, p: Params, elapsedMs: nat -> nat,
                     n: nat, r: Result<map<u8, Telemetry>, WaitError>,
                     n': nat, r': Result<map<u8, Telemetry>, WaitError>)
    requires WaitEnds(answers, base, ids, p, elapsedMs, n, r) && WaitEnds(answers, base, ids, p, elapsedMs, n', r')
    ensures n == n' && r == r'
  {
    hide LogAfter, Complete, Unsettled, LastOf;
    NotBoth(answers, base, ids, p, elapsedMs, n, r);
    NotBoth(answers, base, ids, p, elapsedMs, n', r');
    hide GoesOn;
    if r.Ok? && r'.Ok? {
      SameSettled(ids, LogAfter(answers, base, ids, n, p), r.value, r'.value);
    }
  }

  lemma NotBoth(answers: nat -> Answer, base: nat, ids: seq<u8>, p: Params, elapsedMs: nat -> nat,
                n: nat, r: Result<map<u8, Telemetry>, WaitError>)
    requires n > 0 && Outcome(r, ids, LogAfter(answers, base, ids, n, p), elapsedMs(n - 1), p)
    ensures !GoesOn(answers, base, ids, p, elapsedMs, n)
  {
    hide LogAfter, Complete, Unsettled, LastOf;
  }

  lemma SameSettled(ids: seq<u8>, log: Log, a: map<u8, Telemetry>, b: map<u8, Telemetry>)
    requires a.Keys == b.Keys == IdSet(ids)
    requires forall id :: id in ids ==> LastOf(log, id) == Some(a[id]) && LastOf(log, id) == Some(b[id])
    ensures a == b
  {
    forall id | id in a
      ensures a[id] == b[id]
    {
      assert id in IdSet(ids);
    }
  }

  // --------------------------------------------------------- a timeout that names nobody

  function AtRest(): Answer { Got(Telemetry(2048, 0, false)) }

  /** Servo 1, listed twice, is at rest from the start. One confirmation and ten milliseconds are
      enough to settle it; the wait still times out, and names nobody. */
  lemma DuplicateNamesNobody(base: nat)
    ensures var p := Params(5, 1, 10);
            WaitEnds((k: nat) => AtRest(), base, [1, 1], p, (k: nat) => 20 * k, 2, Err(ProbeTimeout(20, [])))
  {
    var (answers, p, ids) := ((k: nat) => AtRest(), Params(5, 1, 10), [1, 1]);
    var seen := [Entry(1, AtRest())];
    ReadCounts([], 1, Telemetry(2048, 0, false), p);
    assert [] + seen == seen;
    assert Settled(seen, 1, p) && !Settled([], 1, p);
    assert PollLog(answers, base, ids, 2, seen, p) == seen;
    assert PollLog(answers, base, ids, 1, seen, p) == seen;
    assert PollLog(answers, base, ids, 0, [], p) == seen;
    assert PollLog(answers, base, ids, 0, seen, p) == seen;
    assert LogAfter(answers, base, ids, 0, p) == [];
    assert LogAfter(answers, base, ids, 1, p) == seen;
    assert LogAfter(answers, base, ids, 2, p) == seen;
    assert !Distinct(ids) by { assert ids[0] == ids[1]; }
    assert ids[1..] == [1] && ids[1..][1..] == [];
    assert Unsettled(ids, seen, p) == [];
  }

  /** What counts as stopped: not reported as moving, or no faster than the limit either way. */
  lemma StoppedIff(t: Telemetry, stop: u16)
    ensures HasStopped(t, stop) <==> !t.moving || -(stop as int) <= t.speedTicks <= stop
  {
  }

  /** A settled servo's run is exactly as long as needed: reading stopped at once. */
  lemma {:induction false} RunsStopInTime(log: Log, id: u8, p: Params)
    requires NoneReadOnceSettled(log, p)
    ensures StopRun(log, id, p.stopSpeedTicks) <= Needed(p)
    decreases |log|
  {
    if log != [] {
      var n := |log| - 1;
      var before := log[..n];
      assert forall m :: 0 <= m < |before| ==> before[..m] == log[..m];
      RunsStopInTime(before, id, p);
      assert !Settled(log[..n], log[n].id, p);
    }
  }

  // ------------------------------------------------------------------------ group stop

  datatype Probe = Probe(startTicks: u16, hasStarted: bool, stoppedRun: u8)

  function AbsDiff(a: u16, b: u16): nat { if a < b then b - a else a - b }

  predicate StartedMotion(startTicks: u16, t: Telemetry, p: Params) {
    t.moving || Magnitude(t.speedTicks) > p.stopSpeedTicks || AbsDiff(startTicks, t.positionTicks) >= MOTION_START_TICKS
  }

  function Watched(probe: Probe, t: Telemetry, p: Params): Probe {
    var started := probe.hasStarted || StartedMotion(probe.startTicks, t, p);
    Probe(probe.startTicks, started,
          if started && HasStopped(t, p.stopSpeedTicks)
          then if probe.stoppedRun < 255 then probe.stoppedRun + 1 else 255
          else 0)
  }

  /** What counts as motion: reported, or faster than the limit, or 24 ticks from the start. */
  lemma StartedIff(start: u16, t: Telemetry, p: Params)
    ensures StartedMotion(start, t, p) <==>
              t.moving || t.speedTicks as int > p.stopSpeedTicks || t.speedTicks as int < -(p.stopSpeedTicks as int)
              || t.positionTicks as int >= start as int + 24 || t.positionTicks as int + 24 <= start
  {
  }

  /** The feedback of each poll, absent when reading it failed. */
  type Polls = nat -> Option<map<u8, Telemetry>>

  predicate Answered(polls: Polls, k: nat, id: u8) { polls(k).Some? && id in polls(k).value }

  predicate Seen(polls: Polls, n: nat, id: u8) { forall k :: 0 <= k < n ==> Answered(polls, k, id) }

  function At(polls: Polls, k: nat, id: u8): Telemetry
    requires Answered(polls, k, id)
  {
    polls(k).value[id]
  }

  /** A probe after the first `n` polls. */
  function ProbeAfter(probe: Probe, id: u8, polls: Polls, n: nat, p: Params): Probe
    requires Seen(polls, n, id)
  {
    if n == 0 then probe
    else Watched(ProbeAfter(probe, id, polls, n - 1, p), At(polls, n - 1, id), p)
  }

  ghost predicate AllSeen(probes: map<u8, Probe>, polls: Polls, n: nat) {
    forall id :: id in probes ==> Seen(polls, n, id)
  }

  ghost function ProbesAfter(probes: map<u8, Probe>, polls: Polls, n: nat, p: Params): (after: map<u8, Probe>)
    requires AllSeen(probes, polls, n)
    ensures after.Keys == probes.Keys
  {
    map id | id in probes :: ProbeAfter(probes[id], id, polls, n, p)
  }

  predicate Finished(probe: Probe, p: Params) { probe.stoppedRun >= p.confirmStoppedSamples }

  predicate AllFinished(probes: map<u8, Probe>, p: Params) { forall id :: id in probes ==> Finished(probes[id], p) }

  /** The ids below `n` whose probe has, or has not, finished, in ascending order. */
  function Select(probes: map<u8, Probe>, p: Params, finished: bool, n: nat): seq<u8>
    requires n <= 256
  {
    if n == 0 then []
    else if n - 1 in probes && Finished(probes[n - 1], p) == finished then Select(probes, p, finished, n - 1) + [n - 1]
    else Select(probes, p, finished, n - 1)
  }

  ghost function SelectSet(probes: map<u8, Probe>, p: Params, finished: bool, n: nat): set<u8> {
    set id | id in probes && id < n && Finished(probes[id], p) == finished
  }

  lemma {:induction false} SelectCounts(probes: map<u8, Probe>, p: Params, finished: bool, n: nat)
    requires n <= 256
    ensures |Select(probes, p, finished, n)| == |SelectSet(probes, p, finished, n)|
    ensures forall id :: id in Select(probes, p, finished, n) <==> id in SelectSet(probes, p, finished, n)
  {
    hide Finished;
    if n == 0 {
      assert SelectSet(probes, p, finished, 0) == {};
    } else {
      SelectCounts(probes, p, finished, n - 1);
      if n - 1 in probes && Finished(probes[n - 1], p) == finished {
        assert SelectSet(probes, p, finished, n) == SelectSet(probes, p, finished, n - 1) + {n - 1};
      } else {
        assert SelectSet(probes, p, finished, n) == SelectSet(probes, p, finished, n - 1);
      }
    }
  }

  lemma AllFinishedIff(probes: map<u8, Probe>, p: Params)
    ensures |Select(probes, p, true, 256)| == |probes| <==> AllFinished(probes, p)
    ensures Select(probes, p, false, 256) == [] <==> AllFinished(probes, p)
  {
    hide Finished;
    SelectCounts(probes, p, true, 256);
    SelectCounts(probes, p, false, 256);
    SubsetSize(SelectSet(probes, p, true, 256), probes.Keys);
    if AllFinished(probes, p) {
      assert SelectSet(probes, p, true, 256) == probes.Keys;
    } else {
      var id :| id in probes && !Finished(probes[id], p);
      assert id !in SelectSet(probes, p, true, 256);
    }
    if Select(probes, p, false, 256) == [] {
      forall id | id in probes
        ensures Finished(probes[id], p)
      {
        assert id !in Select(probes, p, false, 256);
      }
    } else {
      var id := Select(probes, p, false, 256)[0];
      assert id in Select(probes, p, false, 256);
    }
  }

  /** Later updates leave the selection below them alone. */
  lemma {:induction false} SelectBelow(probes: map<u8, Probe>, p: Params, finished: bool, n: nat, id: u8, probe: Probe)
    requires n <= id
    ensures Select(probes[id := probe], p, finished, n) == Select(probes, p, finished, n)
  {
    hide Finished;
    if n > 0 {
      SelectBelow(probes, p, finished, n - 1, id, probe);
    }
  }

  datatype GroupError = FeedbackMissing | NoStableStop(lingering: seq<u8>)

  /** One poll: every probe watched once, in ascending order. */
  method WatchOnce(probes0: map<u8, Probe>, feedback: map<u8, Telemetry>, p: Params)
    returns (complete: bool, probes: map<u8, Probe>, finished: seq<u8>)
    ensures complete <==> probes0.Keys <= feedback.Keys
    ensures complete ==> probes == map id | id in probes0 :: Watched(probes0[id], feedback[id], p)
    ensures complete ==> finished == Select(probes, p, true, 256)
  {
    hide Watched;
    probes, finished := probes0, [];
    for i := 0 to 256
      invariant probes.Keys == probes0.Keys
      invariant forall id :: id in probes && id < i ==>
                  id in feedback && probes[id] == Watched(probes0[id], feedback[id], p)
      invariant forall id :: id in probes && id >= i ==> probes[id] == probes0[id]
      invariant finished == Select(probes, p, true, i)
    {
      if i in probes {
        if i !in feedback {
          assert i in probes0.Keys && i !in feedback.Keys;
          return false, probes, finished;
        }
        SelectBelow(probes, p, true, i, i, Watched(probes[i], feedback[i], p));
        probes := probes[i := Watched(probes[i], feedback[i], p)];
        if probes[i].stoppedRun >= p.confirmStoppedSamples {
          finished := finished + [i];
        }
      }
    }
    complete := true;
  }

  /** What the group wait's outcome after `n` polls means. */
  ghost predicate GroupResult(r: Result<seq<u8>, GroupError>, probes: map<u8, Probe>, polls: Polls,
                              elapsedMs: nat -> nat,
                              n: nat, p: Params)
    requires n > 0
  {
    match r
    case Ok(finished) =>
      && AllSeen(probes, polls, n) && AllFinished(ProbesAfter(probes, polls, n, p), p)
      && finished == Select(ProbesAfter(probes, polls, n, p), p, true, 256)
    case Err(FeedbackMissing) =>
      && AllSeen(probes, polls, n - 1)
      && (polls(n - 1).None? || exists id :: id in probes && !Answered(polls, n - 1, id))
    case Err(NoStableStop(lingering)) =>
      && AllSeen(probes, polls, n) && lingering != [] && elapsedMs(n - 1) > p.timeoutMs
      && lingering == Select(ProbesAfter(probes, polls, n, p), p, false, 256)
  }

  /** No earlier poll failed, found every probe finished, or came after the timeout. */
  ghost predicate NotBefore(probes: map<u8, Probe>, polls: Polls, elapsedMs: nat -> nat, n: nat, p: Params) {
    forall m :: 0 < m < n ==>
      && AllSeen(probes, polls, m) && !AllFinished(ProbesAfter(probes, polls, m, p), p)
      && elapsedMs(m - 1) <= p.timeoutMs
  }

  method WaitForGroupStop(probes0: map<u8, Probe>, polls: Polls, p: Params, elapsedMs: nat -> nat, ghost lastPoll: nat)
    returns (r: Result<seq<u8>, GroupError>, n: nat)
    requires elapsedMs(lastPoll) > p.timeoutMs
    ensures n > 0 && GroupResult(r, probes0, polls, elapsedMs, n, p) && NotBefore(probes0, polls, elapsedMs, n, p)
  {
    hide Watched, AllFinished, Select, NotBefore, ProbesAfter, AllSeen, Answered;
    var probes := probes0;
    n := 0;
    NoPollsYet(probes0, polls, elapsedMs, p);
    while true
      invariant n <= lastPoll
      invariant AllSeen(probes0, polls, n) && probes == ProbesAfter(probes0, polls, n, p)
      invariant NotBefore(probes0, polls, elapsedMs, n + 1, p)
      decreases lastPoll - n
    {
      var feedback := polls(n);
      if feedback.None? {
        return Err(FeedbackMissing), n + 1;
      }
      var complete, finished;
      complete, probes, finished := WatchOnce(probes, feedback.value, p);
      if !complete {
        SomeMissing(probes0, polls, n);
        return Err(FeedbackMissing), n + 1;
      }
      OnePollMore(probes0, polls, n, p, probes);
      AllFinishedIff(probes, p);
      if |finished| == |probes| {
        return Ok(finished), n + 1;
      }
      if elapsedMs(n) > p.timeoutMs {
        var lingering := Select(probes, p, false, 256);
        return Err(NoStableStop(lingering)), n + 1;
      }
      StillMoving(probes0, polls, elapsedMs, n + 1, p);
      n := n + 1;
    }
  }

  lemma SomeMissing(probes: map<u8, Probe>, polls: Polls, n: nat)
    requires polls(n).Some? && !(probes.Keys <= polls(n).value.Keys)
    ensures exists id :: id in probes && !Answered(polls, n, id)
  {
    var id :| id in probes && id !in polls(n).value;
    assert !Answered(polls, n, id);
  }

  lemma NoPollsYet(probes: map<u8, Probe>, polls: Polls, elapsedMs: nat -> nat, p: Params)
    ensures AllSeen(probes, polls, 0) && ProbesAfter(probes, polls, 0, p) == probes
    ensures NotBefore(probes, polls, elapsedMs, 1, p)
  {
  }

  lemma StillMoving(probes: map<u8, Probe>, polls: Polls, elapsedMs: nat -> nat, n: nat, p: Params)
    requires n > 0 && NotBefore(probes, polls, elapsedMs, n, p) && elapsedMs(n - 1) <= p.timeoutMs
    requires AllSeen(probes, polls, n) && !AllFinished(ProbesAfter(probes, polls, n, p), p)
    ensures NotBefore(probes, polls, elapsedMs, n + 1, p)
  {
    hide ProbesAfter, AllFinished, AllSeen;
  }

  lemma OnePollMore(probes0: map<u8, Probe>, polls: Polls, n: nat, p: Params, probes: map<u8, Probe>)
    requires AllSeen(probes0, polls, n) && polls(n).Some? && probes0.Keys <= polls(n).value.Keys
    requires probes == map id | id in probes0 :: Watched(ProbesAfter(probes0, polls, n, p)[id], polls(n).value[id], p)
    ensures AllSeen(probes0, polls, n + 1) && probes == ProbesAfter(probes0, polls, n + 1, p)
  {
    hide Watched;
    assert forall id :: id in probes0 ==> Answered(polls, n, id);
  }

  lemma {:induction false} StartedMeans(probe: Probe, id: u8, polls: Polls, n: nat, p: Params)
    requires Seen(polls, n, id) && !probe.hasStarted
    ensures ProbeAfter(probe, id, polls, n, p).startTicks == probe.startTicks
    ensures ProbeAfter(probe, id, polls, n, p).hasStarted <==>
              exists k :: 0 <= k < n && StartedMotion(probe.startTicks, At(polls, k, id), p)
  {
    if n > 0 {
      StartedMeans(probe, id, polls, n - 1, p);
      hide StartedMotion;
    }
  }

  /** A run of `c` says: motion had been seen by the first of the last `c` polls, and each of
      these same `c` polls found the servo stopped. */
  lemma {:induction false} GroupRunMeans(probe: Probe, id: u8, polls: Polls, n: nat, c: nat, p: Params)
    requires Seen(polls, n, id) && probe.stoppedRun == 0 && 0 < c <= 255
    ensures ProbeAfter(probe, id, polls, n, p).stoppedRun >= c <==>
              c <= n && ProbeAfter(probe, id, polls, n - c + 1, p).hasStarted
              && forall k :: n - c <= k < n ==> HasStopped(At(polls, k, id), p.stopSpeedTicks)
  {
    hide HasStopped, StartedMotion;
    if n > 0 {
      StaysStarted(probe, id, polls, n - 1, p);
      if c == 1 {
      } else {
        GroupRunMeans(probe, id, polls, n - 1, c - 1, p);
        if c <= n {
          StartedEarlier(probe, id, polls, n - c + 1, n, p);
        }
      }
    }
  }

  lemma StaysStarted(probe: Probe, id: u8, polls: Polls, n: nat, p: Params)
    requires Seen(polls, n + 1, id)
    ensures ProbeAfter(probe, id, polls, n, p).hasStarted ==> ProbeAfter(probe, id, polls, n + 1, p).hasStarted
  {
  }

  lemma {:induction false} StartedEarlier(probe: Probe, id: u8, polls: Polls, m: nat, n: nat, p: Params)
    requires m <= n && Seen(polls, n, id)
    ensures Seen(polls, m, id)
    ensures ProbeAfter(probe, id, polls, m, p).hasStarted ==> ProbeAfter(probe, id, polls, n, p).hasStarted
    decreases n
  {
    if m < n {
      StartedEarlier(probe, id, polls, m, n - 1, p);
      StaysStarted(probe, id, polls, n - 1, p);
    }
  }

  /** What a group stop guarantees: with `c` confirmations, the last `c` polls, the same ones
      for every servo, all found every servo stopped, each having been seen to move no later
      than the first of them. */
  lemma GroupStopsTogether(probes: map<u8, Probe>, polls: Polls, n: nat, p: Params)
    requires AllSeen(probes, polls, n) && p.confirmStoppedSamples > 0
    requires forall id :: id in probes ==> !probes[id].hasStarted && probes[id].stoppedRun == 0
    ensures AllFinished(ProbesAfter(probes, polls, n, p), p) <==>
              forall id :: id in probes ==> StoppedTogether(probes[id], id, polls, n, p)
  {
    hide HasStopped, StartedMotion, Watched;
    forall id | id in probes
      ensures Finished(ProbesAfter(probes, polls, n, p)[id], p) <==> StoppedTogether(probes[id], id, polls, n, p)
    {
      StoppedTogetherIff(probes[id], id, polls, n, p);
    }
  }

  ghost predicate StoppedTogether(probe: Probe, id: u8, polls: Polls, n: nat, p: Params)
    requires Seen(polls, n, id)
  {
    var c := p.confirmStoppedSamples;
    && c <= n
    && (exists k :: 0 <= k <= n - c && k < n && StartedMotion(probe.startTicks, At(polls, k, id), p))
    && forall k :: n - c <= k < n ==> HasStopped(At(polls, k, id), p.stopSpeedTicks)
  }

  lemma StoppedTogetherIff(probe: Probe, id: u8, polls: Polls, n: nat, p: Params)
    requires Seen(polls, n, id) && !probe.hasStarted && probe.stoppedRun == 0 && p.confirmStoppedSamples > 0
    ensures Finished(ProbeAfter(probe, id, polls, n, p), p) <==> StoppedTogether(probe, id, polls, n, p)
  {
    hide HasStopped, StartedMotion, Watched;
    var c := p.confirmStoppedSamples;
    GroupRunMeans(probe, id, polls, n, c, p);
    if c <= n {
      StartedMeans(probe, id, polls, n - c + 1, p);
    }
  }
}
