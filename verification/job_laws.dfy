// What a job's row tells of its history (src/adaptive_quant/persistence/control.py:74-268):
// over every run, each field is what the steps of that job made it.
module JobLaws {
  import opened Wrappers
  import opened Jobs

  predicate IsRunning(jobs: Table, id: int) {
    id in jobs && jobs[id].status == Running
  }

  // Step `n` claimed the job.
  ghost predicate Takes(tables: seq<Table>, events: seq<Event>, id: int, n: nat)
    requires n < |events| < |tables|
  {
    events[n].Claim? && Perform(tables[n], events[n]).outcome == Claimed(Some(id))
  }

  // Step `n` is a heartbeat of the worker that is running the job.
  predicate Beats(tables: seq<Table>, events: seq<Event>, id: int, n: nat)
    requires n < |events| < |tables|
  {
    && events[n].Heartbeat? && events[n].id == id
    && IsRunning(tables[n], id) && tables[n][id].workerId == Some(events[n].worker)
  }

  // The last sign of life of a job before step `n`: its claim, or a heartbeat since.
  ghost function LastSign(tables: seq<Table>, events: seq<Event>, id: int, n: nat): Option<int>
    requires n <= |events| < |tables|
  {
    if n == 0 then None
    else if Takes(tables, events, id, n - 1) || Beats(tables, events, id, n - 1) then Some(events[n - 1].now)
    else LastSign(tables, events, id, n - 1)
  }

  // The row's own account of a running job.
  lemma SignStep(jobs: Table, e: Event, id: int)
    requires WellFormed(jobs) && FreshIds(jobs, e)
    ensures var next := Perform(jobs, e);
      IsRunning(next.jobs, id) ==>
        && id in jobs
        && var taken := e.Claim? && next.outcome == Claimed(Some(id));
        var beaten := e.Heartbeat? && e.id == id && jobs[id].workerId == Some(e.worker);
        && (taken || IsRunning(jobs, id))
        && next.jobs[id].heartbeatAt == (if taken || beaten then Some(e.now) else jobs[id].heartbeatAt)
  {
    StepOfRow(jobs, e, id);
    if Perform(jobs, e).outcome == Claimed(Some(id)) {
      ClaimedWasQueued(jobs, e, id);
    }
    hide Perform, HasIdentical, TruncateOption, Truncate, UnitInterval;
  }

  lemma {:induction false} HeartbeatIsLastSign(tables: seq<Table>, events: seq<Event>, id: int, n: nat)
    requires IsRun(tables, events) && n <= |events| && IsRunning(tables[n], id)
    ensures tables[n][id].heartbeatAt == LastSign(tables, events, id, n) && LastSign(tables, events, id, n).Some?
  {
    RunIsWellFormed(tables, events, n);
    if n > 0 {
      RunIsWellFormed(tables, events, n - 1);
      SignStep(tables[n - 1], events[n - 1], id);
      hide Perform;
      if !Takes(tables, events, id, n - 1) {
        HeartbeatIsLastSign(tables, events, id, n - 1);
      }
    }
  }

  // The sweep fails a running job if and only if its last sign of life is older than the
  // limit, and leaves it alone otherwise.
  lemma SweepFailsIff(tables: seq<Table>, events: seq<Event>, id: int, n: nat)
    requires IsRun(tables, events) && n < |events| && events[n].FailOrphans? && IsRunning(tables[n], id)
    ensures var sign := LastSign(tables, events, id, n);
      && sign.Some? && id in tables[n + 1]
      && (tables[n + 1][id].status == Failed <==> sign.value < events[n].now - events[n].staleAfter)
      && (sign.value >= events[n].now - events[n].staleAfter ==> tables[n + 1][id] == tables[n][id])
  {
    HeartbeatIsLastSign(tables, events, id, n);
    hide LastSign;
  }

  // ------------------------------------------------------------ where a row comes from

  // The row says who asked for the job, when and for what.
  predicate IsRequestOf(e: Event, id: int, j: Job) {
    && e.Create? && e.newId == id
    && j.jobType == e.jobType && j.params == e.params && j.requestedBy == e.actor && j.requestedAt == e.now
    && j.retryOf == e.retryOf
  }

  predicate SameRequest(a: Job, b: Job) {
    && a.jobType == b.jobType && a.params == b.params && a.requestedBy == b.requestedBy
    && a.requestedAt == b.requestedAt && a.retryOf == b.retryOf
  }

  lemma RequestStays(j: Job)
    ensures forall w, t :: SameRequest(j, Start(j, w, t))
    ensures forall t :: SameRequest(j, CancelQueued(j, t)) && SameRequest(j, Orphan(j, t))
    ensures SameRequest(j, CancelRunning(j)) && SameRequest(j, j)
  {
  }

  lemma BeatKeepsRequest(j: Job)
    ensures forall t, p, m :: SameRequest(j, Beat(j, t, p, m))
  {
    hide Truncate, UnitInterval;
  }

  lemma EndKeepsRequest(j: Job)
    ensures forall st, t, r, e, v :: SameRequest(j, End(j, st, t, r, e, v))
  {
    hide TruncateOption, FinishMessage;
  }

  lemma RequestStep(jobs: Table, e: Event, id: int)
    requires FreshIds(jobs, e)
    ensures var next := Perform(jobs, e).jobs;
      && (id in jobs ==> id in next && SameRequest(jobs[id], next[id]))
      && (id in next && id !in jobs ==> IsRequestOf(e, id, next[id]) && next[id].status == Queued)
  {
    StepOfRow(jobs, e, id);
    if id in jobs {
      RequestStays(jobs[id]);
      EndKeepsRequest(jobs[id]);
      BeatKeepsRequest(jobs[id]);
    }
    hide Perform, HasIdentical, Start, Beat, End, CancelQueued, CancelRunning, Orphan, SameRequest;
  }

  lemma {:induction false} RowHasItsRequest(tables: seq<Table>, events: seq<Event>, id: int, n: nat) returns (c: nat)
    requires IsRun(tables, events) && n <= |events| && id in tables[n]
    ensures c < n && IsRequestOf(events[c], id, tables[n][id])
  {
    hide Perform;
    c := n - 1;
    RequestStep(tables[n - 1], events[n - 1], id);
    if id in tables[n - 1] {
      c := RowHasItsRequest(tables, events, id, n - 1);
    }
  }

  // ------------------------------------------------------------ who runs it

  lemma WorkerStep(jobs: Table, e: Event, id: int)
    requires WellFormed(jobs) && FreshIds(jobs, e)
    ensures var next := Perform(jobs, e);
      id in next.jobs && next.jobs[id].workerId.Some? ==>
        if e.Claim? && next.outcome == Claimed(Some(id))
        then next.jobs[id].workerId == Some(e.worker) && next.jobs[id].startedAt == Some(e.now)
        else id in jobs && next.jobs[id].workerId == jobs[id].workerId && next.jobs[id].startedAt == jobs[id].startedAt
  {
    StepOfRow(jobs, e, id);
    if Perform(jobs, e).outcome == Claimed(Some(id)) {
      ClaimedWasQueued(jobs, e, id);
    }
    hide Perform, HasIdentical, TruncateOption, Truncate, UnitInterval;
  }

  // The row names the worker that claimed the job, and when it did.
  lemma {:induction false} RowHasItsClaim(tables: seq<Table>, events: seq<Event>, id: int, n: nat) returns (k: nat)
    requires IsRun(tables, events) && n <= |events| && id in tables[n] && tables[n][id].workerId.Some?
    ensures k < n && Takes(tables, events, id, k)
    ensures tables[n][id].workerId == Some(events[k].worker) && tables[n][id].startedAt == Some(events[k].now)
  {
    hide Perform;
    k := n - 1;
    RunIsWellFormed(tables, events, n - 1);
    WorkerStep(tables[n - 1], events[n - 1], id);
    if !Takes(tables, events, id, n - 1) {
      k := RowHasItsClaim(tables, events, id, n - 1);
    }
  }

  // ------------------------------------------------------------ how it ended

  function First4000(s: string): string {
    if |s| <= 4000 then s else s[..4000]
  }

  // What an ended row says of the step that ended it, the row before being `was`.
  predicate TellsItsEnd(e: Event, id: int, was: Job, j: Job) {
    match e
    case Finish(k, worker, status, now, result, error, version) =>
      && k == id && was.status == Running && was.workerId == Some(worker)
      && j.status == status && status.Terminal() && j.finishedAt == Some(now) && j.heartbeatAt == Some(now)
      && j.message == (if status == Succeeded then "finished" else if status == Failed then "failed" else "cancelled")
      && j.result == result && j.configVersion == version
      && j.error == (if error.Some? then Some(First4000(error.value)) else None)
      && j.progress == (if status == Succeeded then Some(1.0) else None)
    case RequestCancel(k, now) =>
      && k == id && was.status == Queued && j.status == Cancelled && j.finishedAt == Some(now)
      && j.message == "cancelled before it started"
    case FailOrphans(now, staleAfter) =>
      && was.status == Running && j.status == Failed && j.finishedAt == Some(now) && j.error.Some?
      && j.message == "failed"
    case _ => false
  }

  lemma StatusStays(j: Job)
    ensures forall w, t :: Start(j, w, t).status == Running
    ensures forall t, p, m :: Beat(j, t, p, m).status == j.status
    ensures CancelRunning(j).status == j.status
  {
    hide Truncate, UnitInterval;
  }

  lemma NewIsQueued(e: Event)
    requires e.Create?
    ensures NewJob(e.jobType, e.params, e.actor, e.now, e.retryOf).status == Queued
  {
  }

  lemma EndTells(j: Job, status: Status, now: int, result: Option<string>, error: Option<string>,
    version: Option<string>)
    requires status.Terminal() && j.status == Running && j.workerId.Some?
    ensures forall id :: TellsItsEnd(Finish(id, j.workerId.value, status, now, result, error, version), id, j,
                                     End(j, status, now, result, error, version))
  {
  }

  // The step left the ended row alone or ended it.
  ghost predicate EndsBy(jobs: Table, e: Event, id: int) {
    && id in jobs && id in Perform(jobs, e).jobs
    && (TerminalIn(jobs, id) ==> Perform(jobs, e).jobs[id] == jobs[id])
    && (!TerminalIn(jobs, id) ==> TellsItsEnd(e, id, jobs[id], Perform(jobs, e).jobs[id]))
  }

  lemma EndByFinish(jobs: Table, e: Event, id: int)
    requires WellFormed(jobs) && FreshIds(jobs, e) && TerminalIn(Perform(jobs, e).jobs, id) && e.Finish?
    ensures EndsBy(jobs, e, id)
  {
    StepOfRow(jobs, e, id);
    if id in jobs && e.status.Terminal() && OwnedBy(jobs, id, e.worker) {
      EndTells(jobs[id], e.status, e.now, e.result, e.error, e.version);
    }
    hide Perform, End;
  }

  lemma EndByCancel(jobs: Table, e: Event, id: int)
    requires WellFormed(jobs) && FreshIds(jobs, e) && TerminalIn(Perform(jobs, e).jobs, id) && e.RequestCancel?
    ensures EndsBy(jobs, e, id)
  {
    StepOfRow(jobs, e, id);
    if id in jobs {
      StatusStays(jobs[id]);
    }
    hide Perform, CancelRunning;
  }

  lemma EndBySweep(jobs: Table, e: Event, id: int)
    requires WellFormed(jobs) && FreshIds(jobs, e) && TerminalIn(Perform(jobs, e).jobs, id) && e.FailOrphans?
    ensures EndsBy(jobs, e, id)
  {
    StepOfRow(jobs, e, id);
    hide Perform;
  }

  lemma NoEndByClaim(jobs: Table, e: Event, id: int)
    requires WellFormed(jobs) && FreshIds(jobs, e) && TerminalIn(Perform(jobs, e).jobs, id) && e.Claim?
    ensures EndsBy(jobs, e, id)
  {
    StepOfRow(jobs, e, id);
    if Perform(jobs, e).outcome == Claimed(Some(id)) {
      ClaimedWasQueued(jobs, e, id);
    }
    hide Perform, Oldest, TellsItsEnd;
  }

  lemma NoEndByCreation(jobs: Table, e: Event, id: int)
    requires WellFormed(jobs) && FreshIds(jobs, e) && TerminalIn(Perform(jobs, e).jobs, id) && e.Create?
    ensures EndsBy(jobs, e, id)
  {
    StepOfRow(jobs, e, id);
    NewIsQueued(e);
    hide Perform, HasIdentical, NewJob, TellsItsEnd;
  }

  lemma NoEndByBeat(jobs: Table, e: Event, id: int)
    requires WellFormed(jobs) && FreshIds(jobs, e) && TerminalIn(Perform(jobs, e).jobs, id) && e.Heartbeat?
    ensures EndsBy(jobs, e, id)
  {
    StepOfRow(jobs, e, id);
    if id in jobs {
      StatusStays(jobs[id]);
    }
    hide Perform, Beat, TellsItsEnd;
  }

  lemma EndStep(jobs: Table, e: Event, id: int)
    requires WellFormed(jobs) && FreshIds(jobs, e) && TerminalIn(Perform(jobs, e).jobs, id)
    ensures EndsBy(jobs, e, id)
  {
    hide *;
    if e.Finish? {
      EndByFinish(jobs, e, id);
    } else if e.RequestCancel? {
      EndByCancel(jobs, e, id);
    } else if e.FailOrphans? {
      EndBySweep(jobs, e, id);
    } else if e.Claim? {
      NoEndByClaim(jobs, e, id);
    } else if e.Create? {
      NoEndByCreation(jobs, e, id);
    } else {
      NoEndByBeat(jobs, e, id);
    }
  }

  // An ended row tells the one step that ended it: the worker's own finish with all it
  // reported, a cancellation before the start, or a sweep.
  lemma {:induction false} RowHasItsEnd(tables: seq<Table>, events: seq<Event>, id: int, n: nat) returns (k: nat)
    requires IsRun(tables, events) && n <= |events| && TerminalIn(tables[n], id)
    ensures k < n && id in tables[k] && !TerminalIn(tables[k], id)
    ensures TellsItsEnd(events[k], id, tables[k][id], tables[n][id])
  {
    hide Perform, TellsItsEnd;
    k := n - 1;
    RunIsWellFormed(tables, events, n - 1);
    EndStep(tables[n - 1], events[n - 1], id);
    if TerminalIn(tables[n - 1], id) {
      k := RowHasItsEnd(tables, events, id, n - 1);
    }
  }

  // ------------------------------------------------------------ requests to cancel

  lemma CancelStep(jobs: Table, e: Event, id: int)
    requires WellFormed(jobs) && FreshIds(jobs, e)
    ensures var next := Perform(jobs, e).jobs;
      var asked := e.RequestCancel? && e.id == id && IsRunning(jobs, id);
      id in next ==> (next[id].cancelRequested <==> id in jobs && (jobs[id].cancelRequested || asked))
  {
    StepOfRow(jobs, e, id);
    hide Perform, HasIdentical, TruncateOption, Truncate, UnitInterval;
  }

  // A running job was asked to stop in one of the first `n` steps.
  ghost predicate Asked(tables: seq<Table>, events: seq<Event>, id: int, n: nat)
    requires n <= |events| < |tables|
  {
    exists k :: 0 <= k < n && IsRequest(tables, events, id, k)
  }

  predicate IsRequest(tables: seq<Table>, events: seq<Event>, id: int, k: nat)
    requires k < |events| < |tables|
  {
    events[k].RequestCancel? && events[k].id == id && IsRunning(tables[k], id)
  }

  // The row's flag is set exactly if somebody asked for the job's cancellation while it ran.
  lemma {:induction false} RequestedIff(tables: seq<Table>, events: seq<Event>, id: int, n: nat)
    requires IsRun(tables, events) && n <= |events|
    ensures id in tables[n] && tables[n][id].cancelRequested <==> Asked(tables, events, id, n)
  {
    if n > 0 {
      RequestedIff(tables, events, id, n - 1);
      RunIsWellFormed(tables, events, n - 1);
      RequestStep(tables[n - 1], events[n - 1], id);
      CancelStep(tables[n - 1], events[n - 1], id);
      hide Perform;
      if Asked(tables, events, id, n - 1) {
        var k :| 0 <= k < n - 1 && IsRequest(tables, events, id, k);
        assert IsRequest(tables, events, id, k);
      }
      if IsRequest(tables, events, id, n - 1) {
        assert Asked(tables, events, id, n);
      }
    }
  }

  // ------------------------------------------------------------ identical jobs

  // No two identical jobs are active if every request for such a job lets itself be
  // answered with one that is.
  ghost predicate NoTwins(jobs: Table, jobType: string, params: Params) {
    forall a, b ::
      a in jobs && b in jobs && Identical(jobs[a], jobType, params) && Identical(jobs[b], jobType, params) ==> a == b
  }

  lemma TwinStep(jobs: Table, e: Event, jobType: string, params: Params)
    requires WellFormed(jobs) && FreshIds(jobs, e) && NoTwins(jobs, jobType, params)
    requires e.Create? && e.jobType == jobType && e.params == params ==> e.dedupe
    ensures NoTwins(Perform(jobs, e).jobs, jobType, params)
  {
    var next := Perform(jobs, e).jobs;
    forall k | k in next && Identical(next[k], jobType, params)
      ensures (k in jobs && Identical(jobs[k], jobType, params))
        || (k !in jobs && e.Create? && e.newId == k && !HasIdentical(jobs, jobType, params))
    {
      ActiveStep(jobs, e, k, jobType, params);
    }
    hide Perform, Identical;
  }

  lemma ActiveStep(jobs: Table, e: Event, k: int, jobType: string, params: Params)
    requires WellFormed(jobs) && FreshIds(jobs, e)
    requires k in Perform(jobs, e).jobs && Identical(Perform(jobs, e).jobs[k], jobType, params)
    requires e.Create? && e.jobType == jobType && e.params == params ==> e.dedupe
    ensures (k in jobs && Identical(jobs[k], jobType, params))
      || (k !in jobs && e.Create? && e.newId == k && !HasIdentical(jobs, jobType, params))
  {
    StepOfRow(jobs, e, k);
    if Perform(jobs, e).outcome == Claimed(Some(k)) {
      ClaimedWasQueued(jobs, e, k);
    }
    hide Perform, HasIdentical, TruncateOption, Truncate, UnitInterval;
  }

  lemma {:induction false} IdenticalIsUnique(tables: seq<Table>, events: seq<Event>, jobType: string, params: Params,
    n: nat)
    requires IsRun(tables, events) && n <= |events|
    requires forall i ::
      0 <= i < n && events[i].Create? && events[i].jobType == jobType && events[i].params == params ==>
        events[i].dedupe
    ensures NoTwins(tables[n], jobType, params)
  {
    if n > 0 {
      IdenticalIsUnique(tables, events, jobType, params, n - 1);
      RunIsWellFormed(tables, events, n - 1);
      hide Perform, NoTwins;
      TwinStep(tables[n - 1], events[n - 1], jobType, params);
    }
  }

  // ------------------------------------------------------------ progress

  // The last progress reported by the worker, none at the start, within zero and one.
  ghost function LastProgress(tables: seq<Table>, events: seq<Event>, id: int, n: nat): real
    requires n <= |events| < |tables|
  {
    if n == 0 || Takes(tables, events, id, n - 1) then 0.0
    else if Beats(tables, events, id, n - 1) && events[n - 1].progress.Some? then
      var p := events[n - 1].progress.value;
      if p < 0.0 then 0.0 else if p > 1.0 then 1.0 else p
    else LastProgress(tables, events, id, n - 1)
  }

  lemma ProgressStep(jobs: Table, e: Event, id: int)
    requires WellFormed(jobs) && FreshIds(jobs, e)
    ensures var next := Perform(jobs, e);
      IsRunning(next.jobs, id) ==>
        && id in jobs
        && var taken := e.Claim? && next.outcome == Claimed(Some(id));
        var beaten := e.Heartbeat? && e.id == id && jobs[id].workerId == Some(e.worker) && e.progress.Some?;
        && (taken || IsRunning(jobs, id))
        && (taken ==> next.jobs[id].progress == Some(0.0))
        && (!taken && beaten ==>
              next.jobs[id].progress == Some(if e.progress.value < 0.0 then 0.0
                                             else if e.progress.value > 1.0 then 1.0 else e.progress.value))
        && (!taken && !beaten ==> next.jobs[id].progress == jobs[id].progress)
  {
    StepOfRow(jobs, e, id);
    if Perform(jobs, e).outcome == Claimed(Some(id)) {
      ClaimedWasQueued(jobs, e, id);
    }
    hide Perform, HasIdentical, TruncateOption, Truncate;
  }

  lemma {:induction false} ProgressIsReported(tables: seq<Table>, events: seq<Event>, id: int, n: nat)
    requires IsRun(tables, events) && n <= |events| && IsRunning(tables[n], id)
    ensures tables[n][id].progress == Some(LastProgress(tables, events, id, n))
  {
    if n > 0 {
      RunIsWellFormed(tables, events, n - 1);
      ProgressStep(tables[n - 1], events[n - 1], id);
      hide Perform;
      if !Takes(tables, events, id, n - 1) {
        ProgressIsReported(tables, events, id, n - 1);
      }
    }
  }

  function First2000(s: string): string {
    if |s| <= 2000 then s else s[..2000]
  }

  // The last word on a running job: its start, what its worker reported, or that somebody
  // asked for its cancellation.
  ghost function LastText(tables: seq<Table>, events: seq<Event>, id: int, n: nat): string
    requires n <= |events| < |tables|
  {
    if n == 0 || Takes(tables, events, id, n - 1) then "started"
    else if Beats(tables, events, id, n - 1) && events[n - 1].text.Some? then First2000(events[n - 1].text.value)
    else if IsRequest(tables, events, id, n - 1) then "cancellation requested; stops at the next safe checkpoint"
    else LastText(tables, events, id, n - 1)
  }

  // What a step makes of the text of a job that runs after it.
  ghost predicate KeepsText(jobs: Table, e: Event, id: int) {
    var next := Perform(jobs, e);
    IsRunning(next.jobs, id) ==>
      && id in jobs
      && var taken := e.Claim? && next.outcome == Claimed(Some(id));
      var beaten := e.Heartbeat? && e.id == id && jobs[id].workerId == Some(e.worker) && e.text.Some?;
      && (taken || IsRunning(jobs, id))
      && next.jobs[id].message
        == if taken then "started"
           else if beaten then First2000(e.text.value)
           else if e.RequestCancel? && e.id == id then "cancellation requested; stops at the next safe checkpoint"
           else jobs[id].message
  }

  lemma BeatText(jobs: Table, e: Event, id: int)
    requires WellFormed(jobs) && e.Heartbeat?
    ensures KeepsText(jobs, e, id)
  {
    StepOfRow(jobs, e, id);
    hide Perform, UnitInterval;
  }

  lemma TextOfClaim(jobs: Table, e: Event, id: int)
    requires WellFormed(jobs) && FreshIds(jobs, e) && e.Claim?
    ensures KeepsText(jobs, e, id)
  {
    StepOfRow(jobs, e, id);
    if Perform(jobs, e).outcome == Claimed(Some(id)) {
      ClaimedWasQueued(jobs, e, id);
    }
    hide Perform, Oldest;
  }

  lemma TextOfCreation(jobs: Table, e: Event, id: int)
    requires WellFormed(jobs) && FreshIds(jobs, e) && e.Create?
    ensures KeepsText(jobs, e, id)
  {
    StepOfRow(jobs, e, id);
    NewIsQueued(e);
    hide Perform, HasIdentical, NewJob;
  }

  lemma TextOfFinish(jobs: Table, e: Event, id: int)
    requires WellFormed(jobs) && e.Finish?
    ensures KeepsText(jobs, e, id)
  {
    StepOfRow(jobs, e, id);
    if id in jobs {
      EndHasStatus(jobs[id], e.status, e.now, e.result, e.error, e.version);
    }
    hide Perform, End;
  }

  lemma TextOfOthers(jobs: Table, e: Event, id: int)
    requires WellFormed(jobs) && (e.RequestCancel? || e.FailOrphans?)
    ensures KeepsText(jobs, e, id)
  {
    StepOfRow(jobs, e, id);
    hide Perform;
  }

  lemma EndHasStatus(j: Job, status: Status, now: int, result: Option<string>, error: Option<string>,
                     version: Option<string>)
    ensures End(j, status, now, result, error, version).status == status
  {
  }

  lemma TextStep(jobs: Table, e: Event, id: int)
    requires WellFormed(jobs) && FreshIds(jobs, e)
    ensures KeepsText(jobs, e, id)
  {
    hide *;
    match e
    case Create(_, _, _, _, _, _, _) => TextOfCreation(jobs, e, id);
    case Claim(_, _, _, _) => TextOfClaim(jobs, e, id);
    case Heartbeat(_, _, _, _, _) => BeatText(jobs, e, id);
    case Finish(_, _, _, _, _, _, _) => TextOfFinish(jobs, e, id);
    case _ => TextOfOthers(jobs, e, id);
  }

  lemma {:induction false} TextIsReported(tables: seq<Table>, events: seq<Event>, id: int, n: nat)
    requires IsRun(tables, events) && n <= |events| && IsRunning(tables[n], id)
    ensures tables[n][id].message == LastText(tables, events, id, n)
  {
    if n > 0 {
      RunIsWellFormed(tables, events, n - 1);
      TextStep(tables[n - 1], events[n - 1], id);
      hide Perform;
      if !Takes(tables, events, id, n - 1) {
        TextIsReported(tables, events, id, n - 1);
      }
    }
  }

  // ------------------------------------------------------------ what the callers are told

  // A request to cancel is told that a queued job is over, that a running one will stop, or
  // is refused for any other.
  lemma CancelAnswers(jobs: Table, id: int, now: int)
    ensures var outcome := Perform(jobs, RequestCancel(id, now)).outcome;
      && (outcome == Row(true) <==> id in jobs && jobs[id].status == Queued)
      && (outcome == Row(false) <==> id in jobs && jobs[id].status == Running)
      && (outcome == Refused <==> id !in jobs || jobs[id].status.Terminal())
  {
    hide CancelQueued, CancelRunning;
  }
}
