// A worker executing the job it claimed: progress checkpoints, the keep-alive and
// cooperative cancellation (src/adaptive_quant/worker/runner.py:63-148,
// src/adaptive_quant/worker/context.py:45-102).
module Workers {
  import opened Wrappers
  import opened Jobs

  // ------------------------------------------------------------ among other processes

  // A progress checkpoint: its heartbeat is step `beat`, and it tests the context's flag
  // only after a further transaction, some time before step `test`. A keep-alive: its
  // heartbeat is step `beat`, and it has set the flag, if told to, before step `setBy`.
  datatype Progress = Progress(beat: nat, test: nat)
  datatype Keepalive = Keepalive(beat: nat, setBy: nat)

  // The steps of a run that are one execution: its claim, its heartbeats and its finish.
  datatype Execution = Execution(id: int, worker: string, claim: nat, checkpoints: seq<Progress>,
                                 keepalives: seq<Keepalive>, finish: nat)
  {
    function Last(): Progress
      requires checkpoints != []
    {
      checkpoints[|checkpoints| - 1]
    }
  }

  // Checkpoints come one after the other; the first whose test finds the flag set is the
  // last, and the job is then reported as cancelled, and only then.
  ghost predicate Follows(tables: seq<Table>, events: seq<Event>, x: Execution) {
    && x.claim < x.finish < |events| < |tables|
    && events[x.claim].Claim? && events[x.claim].worker == x.worker
    && Perform(tables[x.claim], events[x.claim]).outcome == Claimed(Some(x.id))
    && (forall k :: 0 <= k < |x.checkpoints| ==>
          Beats(events, x, x.checkpoints[k].beat) && x.checkpoints[k].beat < x.checkpoints[k].test <= x.finish)
    && (forall k :: 0 <= k < |x.keepalives| ==>
          Beats(events, x, x.keepalives[k].beat) && x.keepalives[k].beat < x.keepalives[k].setBy)
    && (forall j, k :: 0 <= j < k < |x.checkpoints| ==> x.checkpoints[j].test <= x.checkpoints[k].beat)
    && (forall k :: 0 <= k < |x.checkpoints| - 1 ==> !FlagSet(tables, events, x, x.checkpoints[k].test))
    && events[x.finish].Finish? && events[x.finish].id == x.id && events[x.finish].worker == x.worker
    && events[x.finish].status.Terminal()
    && (events[x.finish].status == Cancelled <==> x.checkpoints != [] && FlagSet(tables, events, x, x.Last().test))
  }

  ghost predicate Beats(events: seq<Event>, x: Execution, n: nat) {
    x.claim < n < x.finish < |events| && events[n].Heartbeat? && events[n].id == x.id && events[n].worker == x.worker
  }

  ghost predicate Answered(tables: seq<Table>, events: seq<Event>, n: nat) {
    n < |events| < |tables| && Perform(tables[n], events[n]).outcome == CancelFlag(true)
  }

  // The context's sticky flag just before step `n`.
  ghost predicate FlagSet(tables: seq<Table>, events: seq<Event>, x: Execution, n: nat) {
    || (exists k ::
          0 <= k < |x.checkpoints| && x.checkpoints[k].beat < n && Answered(tables, events, x.checkpoints[k].beat))
    || (exists k ::
          0 <= k < |x.keepalives| && x.keepalives[k].setBy <= n && Answered(tables, events, x.keepalives[k].beat))
  }

  // The cancellation of job `id` had been requested before step `n`.
  predicate Requested(tables: seq<Table>, id: int, n: nat)
    requires n < |tables|
  {
    id in tables[n] && tables[n][id].cancelRequested
  }

  // A keep-alive reported it in time for the test before step `n`.
  ghost predicate KeepaliveSaw(tables: seq<Table>, x: Execution, n: nat) {
    exists k :: 0 <= k < |x.keepalives| && x.keepalives[k].setBy <= n && x.keepalives[k].beat < |tables|
      && Requested(tables, x.id, x.keepalives[k].beat)
  }

  lemma AnsweredIff(tables: seq<Table>, events: seq<Event>, x: Execution, n: nat)
    requires |events| < |tables| && Beats(events, x, n)
    ensures Answered(tables, events, n) <==> Requested(tables, x.id, n)
  {
    hide Oldest, HasIdentical, Beat;
  }

  lemma FlagSetByLast(tables: seq<Table>, events: seq<Event>, x: Execution)
    requires IsRun(tables, events) && Follows(tables, events, x) && x.checkpoints != []
    ensures FlagSet(tables, events, x, x.Last().test)
       <==> Requested(tables, x.id, x.Last().beat) || KeepaliveSaw(tables, x, x.Last().test)
  {
    hide IsRun, Perform, Answered;
    var n := x.Last().test;
    var last := |x.checkpoints| - 1;
    forall k | 0 <= k < |x.checkpoints|
      ensures x.checkpoints[k].beat <= x.Last().beat
      ensures Answered(tables, events, x.checkpoints[k].beat) ==> Requested(tables, x.id, x.Last().beat)
    {
      AnsweredIff(tables, events, x, x.checkpoints[k].beat);
      assert k < last ==> x.checkpoints[k].test <= x.checkpoints[last].beat;
      if Answered(tables, events, x.checkpoints[k].beat) {
        FlagIsSticky(tables, events, x.id, x.checkpoints[k].beat, x.Last().beat);
      }
    }
    AnsweredIff(tables, events, x, x.checkpoints[last].beat);
    forall k | 0 <= k < |x.keepalives|
      ensures Answered(tables, events, x.keepalives[k].beat) <==> Requested(tables, x.id, x.keepalives[k].beat)
    {
      AnsweredIff(tables, events, x, x.keepalives[k].beat);
    }
  }

  // Whatever the other processes do meanwhile, a job is reported as cancelled exactly when
  // its cancellation had been requested by the heartbeat of its last checkpoint, or by a
  // keep-alive that reported it before that checkpoint's test. So a request before the
  // last checkpoint is never missed, and one after its test changes nothing.
  lemma CancelledIff(tables: seq<Table>, events: seq<Event>, x: Execution)
    requires IsRun(tables, events) && Follows(tables, events, x)
    ensures events[x.finish].status == Cancelled
       <==> x.checkpoints != []
            && (Requested(tables, x.id, x.Last().beat) || KeepaliveSaw(tables, x, x.Last().test))
    ensures x.checkpoints != [] && !Requested(tables, x.id, x.Last().test) ==> events[x.finish].status != Cancelled
  {
    if x.checkpoints != [] {
      FlagSetByLast(tables, events, x);
      hide Perform, FlagSet;
      if Requested(tables, x.id, x.Last().beat) {
        FlagIsSticky(tables, events, x.id, x.Last().beat, x.Last().test);
      } else if KeepaliveSaw(tables, x, x.Last().test) {
        var k :| 0 <= k < |x.keepalives| && x.keepalives[k].setBy <= x.Last().test && x.keepalives[k].beat < |tables|
          && Requested(tables, x.id, x.keepalives[k].beat);
        FlagIsSticky(tables, events, x.id, x.keepalives[k].beat, x.Last().test);
      }
    }
  }

  // The last checkpoint's heartbeat is answered before the request, its test comes after a
  // keep-alive that is told of it.
  const RACE: seq<Event> := [
    Create(5, "t", Other(""), "alice", 0, None, false), Claim("w", 1, {"t"}, {}), Heartbeat(5, "w", 2, None, None),
    RequestCancel(5, 3), Heartbeat(5, "w", 4, None, None), Finish(5, "w", Cancelled, 5, None, None, None)]

  const RACED := Execution(5, "w", 1, [Progress(2, 5)], [Keepalive(4, 5)], 5)

  // The only job's row after that many steps.
  function RaceRow(n: nat): Job
    requires 1 <= n <= |RACE|
  {
    match n
    case 1 => NewJob("t", Other(""), "alice", 0, None)
    case 2 => Start(RaceRow(1), "w", 1)
    case 3 => Beat(RaceRow(2), 2, None, None)
    case 4 => CancelRunning(RaceRow(3))
    case 5 => Beat(RaceRow(4), 4, None, None)
    case _ => End(RaceRow(5), Cancelled, 5, None, None, None)
  }

  function RaceTable(n: nat): Table
    requires n <= |RACE|
  {
    if n == 0 then map[] else map[5 := RaceRow(n)]
  }

  lemma RaceRowIs(n: nat)
    requires 1 <= n <= |RACE|
    ensures var j := RaceRow(n);
      && (n == 1 ==> j.jobType == "t" && j.status == Queued)
      && (2 <= n <= 5 ==> j.status == Running && j.workerId == Some("w"))
      && (j.cancelRequested <==> 4 <= n)
  {
    if n > 1 {
      RaceRowIs(n - 1);
    }
    hide TruncateOption, Truncate, UnitInterval;
  }

  lemma CreatesTheRow()
    ensures Perform(map[], RACE[0]).jobs == map[5 := RaceRow(1)]
  {
  }

  lemma ClaimsTheRow(j: Job)
    requires j.jobType == "t" && j.status == Queued && !j.cancelRequested
    ensures Perform(map[5 := j], RACE[1]) == Step(map[5 := Start(j, "w", 1)], Claimed(Some(5)))
  {
    assert IsOldest(map[5 := j], 5, {"t"}, {});
    OldestIsUnique(map[5 := j], 5, {"t"}, {});
    hide Oldest, IsOldest, Start;
  }

  lemma BeatsTheRow(j: Job, now: int)
    requires j.status == Running && j.workerId == Some("w")
    ensures Perform(map[5 := j], Heartbeat(5, "w", now, None, None))
         == Step(map[5 := Beat(j, now, None, None)], CancelFlag(j.cancelRequested))
  {
    hide Beat;
  }

  lemma CancelsTheRow(j: Job, now: int)
    requires j.status == Running
    ensures Perform(map[5 := j], RequestCancel(5, now)).jobs == map[5 := CancelRunning(j)]
  {
    hide CancelRunning;
  }

  lemma EndsTheRow(j: Job, now: int)
    requires j.status == Running && j.workerId == Some("w")
    ensures Perform(map[5 := j], Finish(5, "w", Cancelled, now, None, None, None)).jobs
         == map[5 := End(j, Cancelled, now, None, None, None)]
  {
    hide End;
  }

  lemma RaceStep(n: nat)
    requires n < |RACE|
    ensures FreshIds(RaceTable(n), RACE[n]) && RaceTable(n + 1) == Perform(RaceTable(n), RACE[n]).jobs
    ensures n == 1 ==> Perform(RaceTable(n), RACE[n]).outcome == Claimed(Some(5))
    ensures n == 2 ==> Perform(RaceTable(n), RACE[n]).outcome == CancelFlag(false)
    ensures n == 4 ==> Perform(RaceTable(n), RACE[n]).outcome == CancelFlag(true)
  {
    hide Perform, Beat, Start, CancelRunning, End;
    if n >= 1 {
      RaceRowIs(n);
    }
    match n
    case 0 => CreatesTheRow();
    case 1 => ClaimsTheRow(RaceRow(1));
    case 2 => BeatsTheRow(RaceRow(2), 2);
    case 3 => CancelsTheRow(RaceRow(3), 3);
    case 4 => BeatsTheRow(RaceRow(4), 4);
    case _ => EndsTheRow(RaceRow(5), 5);
  }

  lemma RaceIsRun(tables: seq<Table>)
    requires |tables| == |RACE| + 1 && forall n :: 0 <= n < |tables| ==> tables[n] == RaceTable(n)
    ensures IsRun(tables, RACE)
  {
    hide RaceTable, Perform, FreshIds;
    assert RaceTable(0) == map[] by { RaceStartsEmpty(); }
    forall n | 0 <= n < |RACE|
      ensures FreshIds(tables[n], RACE[n]) && tables[n + 1] == Perform(tables[n], RACE[n]).jobs
    {
      RaceStep(n);
    }
  }

  lemma RaceStartsEmpty()
    ensures RaceTable(0) == map[]
  {
  }

  lemma RaceFollows(tables: seq<Table>)
    requires |tables| == |RACE| + 1 && forall n :: 0 <= n < |tables| ==> tables[n] == RaceTable(n)
    ensures Follows(tables, RACE, RACED)
  {
    hide RaceTable, Perform;
    RaceStep(1);
    RaceStep(2);
    RaceStep(4);
    assert Answered(tables, RACE, RACED.keepalives[0].beat);
    assert FlagSet(tables, RACE, RACED, 5);
  }

  // Such a run exists: the job is cancelled although its last checkpoint's heartbeat came
  // before the request.
  lemma KeepaliveCanCancel() returns (tables: seq<Table>)
    ensures IsRun(tables, RACE) && Follows(tables, RACE, RACED) && !Requested(tables, 5, RACED.Last().beat)
  {
    tables := seq(|RACE| + 1, n requires 0 <= n <= |RACE| => RaceTable(n));
    RaceIsRun(tables);
    RaceFollows(tables);
    RaceRowIs(2);
    hide IsRun, Follows, RaceRow;
  }

  // An execution leaves its job ended: by its own finish, with the reported status, unless
  // the job had been taken from it and ended before.
  lemma ExecutionEndsTheJob(tables: seq<Table>, events: seq<Event>, x: Execution)
    requires IsRun(tables, events) && Follows(tables, events, x)
    ensures TerminalIn(tables[x.finish + 1], x.id)
    ensures Perform(tables[x.finish], events[x.finish]).outcome == Finished(true)
      <==> !TerminalIn(tables[x.finish], x.id)
    ensures !TerminalIn(tables[x.finish], x.id) ==> tables[x.finish + 1][x.id].status == events[x.finish].status
  {
    OnlyTheClaimerFinishes(tables, events, x.claim, x.finish);
    if TerminalIn(tables[x.finish], x.id) {
      TerminalRowsAreFrozen(tables, events, x.id, x.finish, x.finish + 1);
    }
  }
}
