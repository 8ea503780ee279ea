// The job queue (src/adaptive_quant/persistence/control.py:74-268): each repository
// method is one transaction, so a run of any number of API clients and workers is a
// sequence of these steps in some order.
module Jobs {
  import opened Wrappers

  datatype Status = Queued | Running | Succeeded | Failed | Cancelled {
    predicate Terminal() {
      this == Succeeded || this == Failed || this == Cancelled
    }

    predicate Active() {
      this == Queued || this == Running
    }
  }

  const IMPORT_UPLOAD := "data.import_upload"

  // Canonical job parameters; only the upload an import is for matters here.
  datatype Params = ForUpload(upload: int) | Other(text: string)

  // Job ids are 128-bit numbers (their fixed-width hex text orders the same way).
  datatype Job = Job(
    jobType: string,
    params: Params,
    status: Status,
    requestedBy: string,
    requestedAt: int,
    startedAt: Option<int>,
    finishedAt: Option<int>,
    heartbeatAt: Option<int>,
    workerId: Option<string>,
    progress: Option<real>,
    message: string,
    result: Option<string>,
    error: Option<string>,
    configVersion: Option<string>,
    retryOf: Option<int>,
    cancelRequested: bool)

  type Table = map<int, Job>

  function Truncate(s: string, n: nat): string {
    if |s| <= n then s else s[..n]
  }

  function TruncateOption(s: Option<string>, n: nat): Option<string> {
    if s.None? then None else Some(Truncate(s.value, n))
  }

  function UnitInterval(x: real): real {
    if x < 0.0 then 0.0 else if x > 1.0 then 1.0 else x
  }

  function NewJob(jobType: string, params: Params, actor: string, now: int, retryOf: Option<int>): Job {
    Job(jobType, params, Queued, actor, now, None, None, None, None, None, "waiting for the worker",
        None, None, None, retryOf, false)
  }

  function Start(j: Job, worker: string, now: int): Job {
    j.(status := Running, workerId := Some(worker), startedAt := Some(now), heartbeatAt := Some(now),
       progress := Some(0.0), message := "started")
  }

  function Beat(j: Job, now: int, progress: Option<real>, message: Option<string>): Job {
    j.(heartbeatAt := Some(now),
       progress := if progress.Some? then Some(UnitInterval(progress.value)) else j.progress,
       message := if message.Some? then Truncate(message.value, 2000) else j.message)
  }

  function FinishMessage(status: Status): string {
    match status
    case Succeeded => "finished"
    case Failed => "failed"
    case _ => "cancelled"
  }

  function End(j: Job, status: Status, now: int, result: Option<string>, error: Option<string>,
    version: Option<string>): Job {
    j.(status := status, finishedAt := Some(now), heartbeatAt := Some(now),
       progress := if status == Succeeded then Some(1.0) else None, message := FinishMessage(status),
       result := result, error := TruncateOption(error, 4000), configVersion := version)
  }

  function CancelQueued(j: Job, now: int): Job {
    j.(status := Cancelled, finishedAt := Some(now), message := "cancelled before it started")
  }

  function CancelRunning(j: Job): Job {
    j.(cancelRequested := true, message := "cancellation requested; stops at the next safe checkpoint")
  }

  function Orphan(j: Job, now: int): Job {
    j.(status := Failed, finishedAt := Some(now), message := "failed",
       error := Some("the worker stopped while this job was running; nothing was retried automatically"))
  }

  // ------------------------------------------------------------ selections

  predicate Identical(j: Job, jobType: string, params: Params) {
    j.jobType == jobType && j.status.Active() && j.params == params
  }

  predicate HasIdentical(jobs: Table, jobType: string, params: Params) {
    exists id :: id in jobs && Identical(jobs[id], jobType, params)
  }

  predicate Claimable(jobs: Table, id: int, types: set<string>, locked: set<int>) {
    id in jobs && jobs[id].status == Queued && jobs[id].jobType in types && !jobs[id].cancelRequested && id !in locked
  }

  predicate Before(jobs: Table, a: int, b: int)
    requires a in jobs && b in jobs
  {
    jobs[a].requestedAt < jobs[b].requestedAt || (jobs[a].requestedAt == jobs[b].requestedAt && a <= b)
  }

  // The first row the claim query returns, skipping rows other transactions have locked.
  ghost predicate IsOldest(jobs: Table, id: int, types: set<string>, locked: set<int>) {
    && Claimable(jobs, id, types, locked)
    && forall k :: Claimable(jobs, k, types, locked) ==> Before(jobs, id, k)
  }

  ghost function Oldest(jobs: Table, types: set<string>, locked: set<int>): Option<int> {
    if exists id :: IsOldest(jobs, id, types, locked)
    then
      var id :| IsOldest(jobs, id, types, locked);
      Some(id)
    else None
  }

  lemma OldestIsUnique(jobs: Table, id: int, types: set<string>, locked: set<int>)
    requires IsOldest(jobs, id, types, locked)
    ensures Oldest(jobs, types, locked) == Some(id)
  {
  }

  predicate OwnedBy(jobs: Table, id: int, worker: string) {
    id in jobs && jobs[id].status == Running && jobs[id].workerId == Some(worker)
  }

  predicate Stale(j: Job, cutoff: int) {
    j.status == Running && j.heartbeatAt.Some? && j.heartbeatAt.value < cutoff
  }

  // ------------------------------------------------------------ the steps

  datatype Event =
    | Create(newId: int, jobType: string, params: Params, actor: string, now: int, retryOf: Option<int>, dedupe: bool)
    | Claim(worker: string, now: int, types: set<string>, locked: set<int>)
    | Heartbeat(id: int, worker: string, now: int, progress: Option<real>, text: Option<string>)
    | Finish(id: int, worker: string, status: Status, now: int, result: Option<string>, error: Option<string>,
             version: Option<string>)
    | RequestCancel(id: int, now: int)
    | FailOrphans(now: int, staleAfter: int)

  datatype Outcome =
    | Created
    | Existing
    | Claimed(job: Option<int>)
    | CancelFlag(requested: bool)
    | Finished(done: bool)
    | Row(cancelled: bool)
    | Refused
    | OrphansFailed

  datatype Step = Step(jobs: Table, outcome: Outcome)

  ghost function Perform(jobs: Table, e: Event): Step {
    match e
    case Create(id, jobType, params, actor, now, retryOf, dedupe) =>
      if dedupe && HasIdentical(jobs, jobType, params) then Step(jobs, Existing)
      else Step(jobs[id := NewJob(jobType, params, actor, now, retryOf)], Created)
    case Claim(worker, now, types, locked) =>
      var id := Oldest(jobs, types, locked);
      if id.None? || id.value !in jobs then Step(jobs, Claimed(None))
      else Step(jobs[id.value := Start(jobs[id.value], worker, now)], Claimed(id))
    case Heartbeat(id, worker, now, progress, text) =>
      Step(if OwnedBy(jobs, id, worker) then jobs[id := Beat(jobs[id], now, progress, text)] else jobs,
           CancelFlag(id in jobs && jobs[id].cancelRequested))
    case Finish(id, worker, status, now, result, error, version) =>
      if !status.Terminal() then Step(jobs, Refused)
      else if OwnedBy(jobs, id, worker)
      then Step(jobs[id := End(jobs[id], status, now, result, error, version)], Finished(true))
      else Step(jobs, Finished(false))
    case RequestCancel(id, now) =>
      if id !in jobs then Step(jobs, Refused)
      else if jobs[id].status == Queued then Step(jobs[id := CancelQueued(jobs[id], now)], Row(true))
      else if jobs[id].status == Running then Step(jobs[id := CancelRunning(jobs[id])], Row(false))
      else Step(jobs, Refused)
    case FailOrphans(now, staleAfter) =>
      Step(map id | id in jobs :: if Stale(jobs[id], now - staleAfter) then Orphan(jobs[id], now) else jobs[id],
           OrphansFailed)
  }

  // ------------------------------------------------------------ runs

  // New job ids are random 128-bit numbers; a run never draws one twice.
  ghost predicate FreshIds(jobs: Table, e: Event) {
    e.Create? ==> e.newId !in jobs
  }

  ghost predicate IsRun(tables: seq<Table>, events: seq<Event>) {
    && |tables| == |events| + 1
    && tables[0] == map[]
    && (forall i :: 0 <= i < |events| ==>
          FreshIds(tables[i], events[i]) && tables[i + 1] == Perform(tables[i], events[i]).jobs)
  }

  // How often job `id` was claimed in the first `n` steps.
  ghost function Claims(tables: seq<Table>, events: seq<Event>, id: int, n: nat): nat
    requires n <= |events| < |tables|
  {
    if n == 0 then 0
    else Claims(tables, events, id, n - 1)
         + (if Perform(tables[n - 1], events[n - 1]).outcome == Claimed(Some(id)) then 1 else 0)
  }

  ghost predicate TerminalIn(jobs: Table, id: int) {
    id in jobs && jobs[id].status.Terminal()
  }

  // Which of the three ways of ending a job this step is, if any.
  datatype Ending = NotAnEnding | ByFinish | ByOrphanFailure | ByQueuedCancel

  ghost function EndingOf(jobs: Table, e: Event, id: int): Ending {
    if !(id in jobs && jobs[id].status.Active()) then NotAnEnding
    else match e
      case Finish(k, worker, status, _, _, _, _) =>
        if k == id && status.Terminal() && OwnedBy(jobs, id, worker) then ByFinish else NotAnEnding
      case FailOrphans(now, staleAfter) => if Stale(jobs[id], now - staleAfter) then ByOrphanFailure else NotAnEnding
      case RequestCancel(k, _) => if k == id && jobs[id].status == Queued then ByQueuedCancel else NotAnEnding
      case _ => NotAnEnding
  }

  ghost function Endings(tables: seq<Table>, events: seq<Event>, id: int, n: nat): nat
    requires n <= |events| < |tables|
  {
    if n == 0 then 0
    else
      Endings(tables, events, id, n - 1)
      + (if EndingOf(tables[n - 1], events[n - 1], id) != NotAnEnding then 1 else 0)
  }

  // ------------------------------------------------------------ one step

  // A claim is the only way to get a worker, and takes a queued job without one.
  predicate WellFormedRow(j: Job) {
    && (j.status == Queued ==> j.workerId.None? && !j.cancelRequested)
    && (j.status == Running ==> j.workerId.Some? && j.heartbeatAt.Some?)
  }

  ghost predicate WellFormed(jobs: Table) {
    forall id :: id in jobs ==> WellFormedRow(jobs[id])
  }

  lemma OldestIsClaimable(jobs: Table, types: set<string>, locked: set<int>)
    ensures Oldest(jobs, types, locked).Some? ==> Claimable(jobs, Oldest(jobs, types, locked).value, types, locked)
  {
  }

  function RowOf(jobs: Table, id: int): Option<Job> {
    if id in jobs then Some(jobs[id]) else None
  }

  // What one step makes of one row, for the steps whose row is named or computed.
  function RowAfter(jobs: Table, e: Event, id: int, claimed: bool): Option<Job> {
    var row := RowOf(jobs, id);
    match e
    case Create(k, jobType, params, actor, now, retryOf, dedupe) =>
      if k == id && !(dedupe && HasIdentical(jobs, jobType, params))
        then Some(NewJob(jobType, params, actor, now, retryOf)) else row
    case Claim(worker, now, _, _) => if claimed && row.Some? then Some(Start(row.value, worker, now)) else row
    case Heartbeat(k, worker, now, progress, text) =>
      if k == id && OwnedBy(jobs, id, worker) then Some(Beat(row.value, now, progress, text)) else row
    case Finish(k, worker, status, now, result, error, version) =>
      if k == id && status.Terminal() && OwnedBy(jobs, id, worker)
      then Some(End(row.value, status, now, result, error, version)) else row
    case RequestCancel(k, now) =>
      if k != id || row.None? then row
      else if row.value.status == Queued then Some(CancelQueued(row.value, now))
      else if row.value.status == Running then Some(CancelRunning(row.value))
      else row
    case FailOrphans(now, staleAfter) =>
      if row.Some? && Stale(row.value, now - staleAfter) then Some(Orphan(row.value, now)) else row
  }

  lemma StepOfRow(jobs: Table, e: Event, id: int)
    ensures var step := Perform(jobs, e);
      RowOf(step.jobs, id) == RowAfter(jobs, e, id, step.outcome == Claimed(Some(id)))
    ensures !e.Claim? ==> !Perform(jobs, e).outcome.Claimed?
  {
    if e.Claim? {
      OldestIsClaimable(jobs, e.types, e.locked);
    }
    hide Oldest, HasIdentical, Beat, End, Orphan, NewJob, Start, CancelQueued, CancelRunning;
  }

  // Only a queued job that nobody has is claimed.
  lemma ClaimedWasQueued(jobs: Table, e: Event, id: int)
    requires WellFormed(jobs) && Perform(jobs, e).outcome == Claimed(Some(id))
    ensures e.Claim? && id in jobs && jobs[id].status == Queued && jobs[id].workerId.None?
  {
    if e.Claim? {
      OldestIsClaimable(jobs, e.types, e.locked);
    }
    hide Oldest, HasIdentical;
  }

  // What one step can do to one job.
  lemma StepOnJob(jobs: Table, e: Event, id: int)
    requires WellFormed(jobs) && FreshIds(jobs, e)
    ensures var next := Perform(jobs, e).jobs;
      && (id in jobs ==> id in next)
      && (TerminalIn(jobs, id) ==> next[id] == jobs[id])
      && (id in next && id !in jobs ==> next[id].status == Queued && next[id].workerId.None?)
      && (id in jobs && Perform(jobs, e).outcome == Claimed(Some(id)) ==>
            jobs[id].workerId.None? && next[id].workerId.Some? && next[id].status == Running)
      && (id in jobs && Perform(jobs, e).outcome != Claimed(Some(id)) ==> next[id].workerId == jobs[id].workerId)
      && (Perform(jobs, e).outcome == Claimed(Some(id)) ==> id in jobs)
      && (id in jobs && jobs[id].cancelRequested ==> next[id].cancelRequested)
  {
    StepOfRow(jobs, e, id);
    if Perform(jobs, e).outcome == Claimed(Some(id)) {
      ClaimedWasQueued(jobs, e, id);
    }
    hide Perform, HasIdentical, TruncateOption, Truncate, UnitInterval;
  }

  // A job becomes terminal in exactly the steps that end it, one of the three ways.
  lemma StepEnds(jobs: Table, e: Event, id: int)
    requires WellFormed(jobs) && FreshIds(jobs, e)
    ensures EndingOf(jobs, e, id) != NotAnEnding
       <==> !TerminalIn(jobs, id) && TerminalIn(Perform(jobs, e).jobs, id)
  {
    StepOfRow(jobs, e, id);
    if Perform(jobs, e).outcome == Claimed(Some(id)) {
      ClaimedWasQueued(jobs, e, id);
    }
    hide Perform, HasIdentical, TruncateOption, Truncate, UnitInterval;
  }

  lemma StepKeepsWellFormed(jobs: Table, e: Event)
    requires WellFormed(jobs)
    ensures WellFormed(Perform(jobs, e).jobs)
  {
    var next := Perform(jobs, e).jobs;
    forall id | id in next ensures WellFormedRow(next[id]) {
      StepOfRow(jobs, e, id);
      assert RowOf(next, id) == Some(next[id]);
      hide Perform, HasIdentical, TruncateOption, Truncate, UnitInterval;
    }
    hide Perform;
  }

  // ------------------------------------------------------------ whole runs

  lemma {:induction false} RunIsWellFormed(tables: seq<Table>, events: seq<Event>, n: nat)
    requires IsRun(tables, events) && n <= |events|
    ensures WellFormed(tables[n])
  {
    if n > 0 {
      RunIsWellFormed(tables, events, n - 1);
      StepKeepsWellFormed(tables[n - 1], events[n - 1]);
    }
  }

  // What step `n` of a run did to one job.
  lemma RunStep(tables: seq<Table>, events: seq<Event>, id: int, n: nat)
    requires IsRun(tables, events) && n < |events|
    ensures tables[n + 1] == Perform(tables[n], events[n]).jobs
    ensures id in tables[n] ==> id in tables[n + 1]
    ensures TerminalIn(tables[n], id) ==> tables[n + 1][id] == tables[n][id]
    ensures id in tables[n] && tables[n][id].workerId.Some? ==> tables[n + 1][id].workerId == tables[n][id].workerId
    ensures id in tables[n] && tables[n][id].cancelRequested ==> tables[n + 1][id].cancelRequested
  {
    RunIsWellFormed(tables, events, n);
    hide Perform, WellFormed;
    StepOnJob(tables[n], events[n], id);
  }

  // Over every run a job is claimed at most once: exactly when it has a worker.
  lemma {:induction false} ClaimedAtMostOnce(tables: seq<Table>, events: seq<Event>, id: int, n: nat)
    requires IsRun(tables, events) && n <= |events|
    ensures Claims(tables, events, id, n) == if id in tables[n] && tables[n][id].workerId.Some? then 1 else 0
  {
    if n > 0 {
      ClaimedAtMostOnce(tables, events, id, n - 1);
      RunIsWellFormed(tables, events, n - 1);
      hide Perform, WellFormed;
      StepOnJob(tables[n - 1], events[n - 1], id);
    }
  }

  // Over every run a job ends at most once: exactly when it is in a terminal state.
  lemma {:induction false} EndsExactlyOnce(tables: seq<Table>, events: seq<Event>, id: int, n: nat)
    requires IsRun(tables, events) && n <= |events|
    ensures Endings(tables, events, id, n) == if TerminalIn(tables[n], id) then 1 else 0
  {
    if n > 0 {
      EndsExactlyOnce(tables, events, id, n - 1);
      RunIsWellFormed(tables, events, n - 1);
      hide Perform, WellFormed, EndingOf;
      StepEnds(tables[n - 1], events[n - 1], id);
      StepOnJob(tables[n - 1], events[n - 1], id);
    }
  }

  // A terminal job's row never changes again.
  lemma {:induction false} TerminalRowsAreFrozen(tables: seq<Table>, events: seq<Event>, id: int, m: nat, n: nat)
    requires IsRun(tables, events) && m <= n <= |events| && TerminalIn(tables[m], id)
    ensures id in tables[n] && tables[n][id] == tables[m][id]
    decreases n - m
  {
    hide IsRun, Perform;
    if m < n {
      TerminalRowsAreFrozen(tables, events, id, m, n - 1);
      RunStep(tables, events, id, n - 1);
    }
  }

  // A worker whose job was taken from it - failed as an orphan, or finished before -
  // gets False for its late result, and nothing changes.
  lemma LateFinishChangesNothing(tables: seq<Table>, events: seq<Event>, m: nat, n: nat)
    requires IsRun(tables, events) && m <= n < |events|
    requires events[n].Finish? && events[n].status.Terminal() && TerminalIn(tables[m], events[n].id)
    ensures Perform(tables[n], events[n]) == Step(tables[n], Finished(false))
    ensures tables[n + 1] == tables[n]
  {
    TerminalRowsAreFrozen(tables, events, events[n].id, m, n);
  }

  lemma {:induction false} WorkerNeverChanges(tables: seq<Table>, events: seq<Event>, id: int, m: nat, n: nat)
    requires IsRun(tables, events) && m <= n <= |events|
    requires id in tables[m] && tables[m][id].workerId.Some?
    ensures id in tables[n] && tables[n][id].workerId == tables[m][id].workerId
    decreases n - m
  {
    hide IsRun, Perform;
    if m < n {
      WorkerNeverChanges(tables, events, id, m, n - 1);
      RunStep(tables, events, id, n - 1);
    }
  }

  // Only the worker that claimed a job can finish it, and it can exactly until the job
  // ends: its finish succeeds if and only if no step since the claim ended the job.
  lemma OnlyTheClaimerFinishes(tables: seq<Table>, events: seq<Event>, m: nat, n: nat)
    requires IsRun(tables, events) && m < n < |events|
    requires events[m].Claim? && events[n].Finish? && events[n].status.Terminal()
    requires Perform(tables[m], events[m]).outcome == Claimed(Some(events[n].id))
    ensures Perform(tables[n], events[n]).outcome == Finished(true)
       <==> events[n].worker == events[m].worker && !TerminalIn(tables[n], events[n].id)
  {
    var id := events[n].id;
    RunIsWellFormed(tables, events, m);
    RunIsWellFormed(tables, events, n);
    assert tables[m + 1][id].workerId == Some(events[m].worker);
    WorkerNeverChanges(tables, events, id, m + 1, n);
  }

  // A cancellation request reaches the worker at its next checkpoint and every later one.
  lemma {:induction false} CancellationIsSticky(tables: seq<Table>, events: seq<Event>, id: int, m: nat, n: nat)
    requires IsRun(tables, events) && m <= n <= |events|
    requires id in tables[m] && tables[m][id].cancelRequested
    ensures id in tables[n] && tables[n][id].cancelRequested
    ensures n < |events| && events[n].Heartbeat? && events[n].id == id ==>
      Perform(tables[n], events[n]).outcome == CancelFlag(true)
    decreases n - m
  {
    if m < n {
      FlagIsSticky(tables, events, id, m, n);
    }
    hide Oldest, HasIdentical, Beat, IsRun;
  }

  lemma {:induction false} FlagIsSticky(tables: seq<Table>, events: seq<Event>, id: int, m: nat, n: nat)
    requires IsRun(tables, events) && m <= n <= |events|
    requires id in tables[m] && tables[m][id].cancelRequested
    ensures id in tables[n] && tables[n][id].cancelRequested
    decreases n - m
  {
    hide IsRun, Perform;
    if m < n {
      FlagIsSticky(tables, events, id, m, n - 1);
      RunStep(tables, events, id, n - 1);
    }
  }

  // Claims are first in, first out among the rows not locked by someone else.
  lemma ClaimsAreInOrder(jobs: Table, e: Event, other: int)
    requires e.Claim? && Perform(jobs, e).outcome.Claimed?
    requires Claimable(jobs, other, e.types, e.locked)
    ensures Perform(jobs, e).outcome.job.Some?
    ensures var id := Perform(jobs, e).outcome.job.value;
      id in jobs && Before(jobs, id, other)
  {
    var ids := set k | k in jobs && Claimable(jobs, k, e.types, e.locked);
    assert other in ids;
    var first := FirstOf(jobs, ids, other);
    assert IsOldest(jobs, first, e.types, e.locked) by {
      forall k | Claimable(jobs, k, e.types, e.locked) ensures Before(jobs, first, k) {
        assert k in ids;
      }
    }
    OldestIsUnique(jobs, first, e.types, e.locked);
  }

  lemma {:induction false} FirstOf(jobs: Table, ids: set<int>, candidate: int) returns (first: int)
    requires ids <= jobs.Keys && candidate in ids
    ensures first in ids
    ensures forall k :: k in ids ==> Before(jobs, first, k)
    decreases ids
  {
    if forall k :: k in ids ==> Before(jobs, candidate, k) {
      first := candidate;
    } else {
      var earlier :| earlier in ids && !Before(jobs, candidate, earlier);
      var ahead := set k | k in ids && Before(jobs, k, earlier);
      assert candidate !in ahead && earlier in ahead;
      first := FirstOf(jobs, ahead, earlier);
      forall k | k in ids ensures Before(jobs, first, k) {
        if k !in ahead {
          assert Before(jobs, first, earlier) && Before(jobs, earlier, k);
        }
      }
    }
  }
}
