// The worker and the context of the job it executes
// (src/adaptive_quant/worker/runner.py:74-148, src/adaptive_quant/worker/context.py:45-102):
// whatever other processes do between its transactions, what it does is an execution in
// the sense of Workers.Follows.
module WorkerObjects {
  import opened Wrappers
  import opened Jobs
  import opened JobRepositories
  import opened Workers
  import opened Executions

  // JobContext: the flag is set when a heartbeat of the job is told so, never cleared.
  class JobContext {
    const repo: JobRepository
    const jobId: int
    const workerId: string
    var cancelled: bool
    // what the keep-alive's thread was answered and has not acted on yet
    var told: Option<bool>

    constructor (repo: JobRepository, jobId: int, workerId: string)
      ensures this.repo == repo && this.jobId == jobId && this.workerId == workerId && !cancelled && told.None?
    {
      this.repo, this.jobId, this.workerId, cancelled, told := repo, jobId, workerId, false, None;
    }

    // The keep-alive's heartbeat and, later, what its thread makes of the answer.
    method KeepaliveBeat(now: int)
      modifies this`told, repo
      ensures told.Some?
      ensures Step(repo.jobs, CancelFlag(told.value))
           == Perform(old(repo.jobs), Heartbeat(jobId, workerId, now, None, None))
    {
      var cancel := repo.RecordHeartbeat(jobId, workerId, now, None, None);
      told := Some(cancel);
    }

    method KeepaliveAct()
      requires told.Some?
      modifies this`cancelled, this`told
      ensures told.None? && cancelled == (old(cancelled) || old(told).value)
    {
      if told.value {
        cancelled := true;
      }
      told := None;
    }

    // The heartbeat of a checkpoint.
    method Record(now: int, text: string, fraction: Option<real>) returns (ghost cancel: bool)
      modifies this`cancelled, repo
      ensures Step(repo.jobs, CancelFlag(cancel))
           == Perform(old(repo.jobs), Heartbeat(jobId, workerId, now, fraction, Some(text)))
      ensures cancelled == (old(cancelled) || cancel)
    {
      var answer := repo.RecordHeartbeat(jobId, workerId, now, fraction, Some(text));
      if answer {
        cancelled := true;
      }
      cancel := answer;
    }
  }

  // What happens between two transactions of the job's own thread: transactions of other
  // processes, and the two moments of the keep-alive.
  datatype Act = Elsewhere(event: Event) | KeepaliveBeats(now: int) | KeepaliveActs

  // A checkpoint of the handler, what comes before its heartbeat, and what comes between
  // that and its test.
  datatype Checkpoint = Checkpoint(before: seq<Act>, now: int, text: string, fraction: Option<real>, between: seq<Act>)

  datatype HandlerEnd = Returned(result: string) | Raised(error: string)

  function EndStatus(end: HandlerEnd): Status {
    if end.Returned? then Succeeded else Failed
  }

  // The finish of an execution reports the handler's result or error, or the cancellation.
  predicate Reports(t: Trace, end: HandlerEnd, now: int, version: Option<string>) {
    && t.x.finish < |t.events| && t.events[t.x.finish].Finish?
    && var e := t.events[t.x.finish];
    && e.now == now && e.version == version
    && (e.status == Cancelled ==> e.result.None? && e.error == Some("cancelled by the operator"))
    && (e.status != Cancelled && end.Returned? ==>
          e.status == Succeeded && e.result == Some(end.result) && e.error.None?)
    && (e.status != Cancelled && end.Raised? ==> e.status == Failed && e.result.None? && e.error == Some(end.error))
  }

  ghost predicate Among(acts: seq<Act>, others: iset<Event>) {
    forall i :: 0 <= i < |acts| && acts[i].Elsewhere? ==> acts[i].event in others
  }

  // Another process's transaction. New identifiers never repeat.
  method Transact(repo: JobRepository, e: Event) returns (done: bool)
    modifies repo
    ensures done <==> FreshIds(old(repo.jobs), e)
    ensures repo.jobs == if done then Perform(old(repo.jobs), e).jobs else old(repo.jobs)
  {
    done := true;
    match e
    case Create(newId, jobType, params, actor, now, retryOf, dedupe) =>
      if newId in repo.jobs {
        return false;
      }
      var _, _ := repo.CreateJob(newId, jobType, params, actor, now, retryOf, dedupe);
    case Claim(worker, now, types, locked) =>
      var _ := repo.ClaimNext(worker, now, types, locked);
    case Heartbeat(id, worker, now, progress, text) =>
      var _ := repo.RecordHeartbeat(id, worker, now, progress, text);
    case Finish(id, worker, status, now, result, error, version) =>
      var _ := repo.FinishJob(id, worker, status, now, result, error, version);
    case RequestCancel(id, now) =>
      var _ := repo.RequestJobCancel(id, now);
    case FailOrphans(now, staleAfter) =>
      var _ := repo.FailOrphanedJobs(now, staleAfter);
  }

  class Worker {
    const id: string
    const repo: JobRepository
    var current: Option<int>

    constructor (id: string, repo: JobRepository)
      ensures this.id == id && this.repo == repo && current.None?
    {
      this.id, this.repo, current := id, repo, None;
    }

    // The rows and the context are where the trace of the execution says.
    ghost predicate Tracks(t: Trace, context: JobContext)
      reads repo, context
    {
      && context.repo == repo && context.workerId == id == t.x.worker && context.jobId == t.x.id
      && Ongoing(t, context.cancelled, context.told) && t.tables[|t.events|] == repo.jobs
    }

    method Meanwhile(context: JobContext, acts: seq<Act>, ghost t: Trace, ghost others: iset<Event>)
      returns (ghost next: Trace)
      requires Tracks(t, context) && Among(acts, others)
      modifies repo, context`cancelled, context`told
      ensures Tracks(next, context) && Grown(t, next, others)
      ensures SameTests(t, next) && next.x.checkpoints == t.x.checkpoints
    {
      hide Perform, Ongoing, IsRun;
      next := t;
      for i := 0 to |acts|
        invariant Tracks(next, context) && Grown(t, next, others)
        invariant SameTests(t, next) && next.x.checkpoints == t.x.checkpoints
      {
        next := Once(context, acts[i], t, next, others);
      }
    }

    method Once(context: JobContext, act: Act, ghost first: Trace, ghost t: Trace, ghost others: iset<Event>)
      returns (ghost next: Trace)
      requires Tracks(t, context) && Grown(first, t, others) && SameTests(first, t)
      requires act.Elsewhere? ==> act.event in others
      modifies repo, context`cancelled, context`told
      ensures Tracks(next, context) && Grown(first, next, others)
      ensures SameTests(first, next) && next.x.checkpoints == t.x.checkpoints
    {
      hide Perform, Ongoing, IsRun, SameTests, Grown, FreshIds;
      next := t;
      TraceShape(t, context.cancelled, context.told);
      match act
      case Elsewhere(e) =>
        var done := Transact(repo, e);
        if done {
          OtherStep(t, e, context.cancelled, context.told);
          AfterGrows(t, e, others);
          next := After(t, e);
          StepGrows(first, t, next, others);
        }
      case KeepaliveBeats(now) =>
        if context.told.None? {
          context.KeepaliveBeat(now);
          ghost var e := Heartbeat(context.jobId, id, now, None, None);
          KeepaliveStep(t, e, context.cancelled, context.told.value);
          next := Awaiting(t, e);
          AfterGrows(t, e, others);
          StepGrows(first, t, next, others);
        }
      case KeepaliveActs =>
        if context.told.Some? {
          TellStep(t, context.cancelled, context.told.value);
          context.KeepaliveAct();
          next := Told(t);
          SameGrows(t, others);
          StepGrows(first, t, next, others);
        }
    }

    // One checkpoint: heartbeat, log, test; `stop` is the raised JobCancelled.
    method Pass(context: JobContext, check: Checkpoint, ghost t: Trace, ghost others: iset<Event>)
      returns (stop: bool, ghost next: Trace)
      requires Tracks(t, context) && Passed(t, |t.x.checkpoints|)
      requires Among(check.before, others) && Among(check.between, others)
      modifies repo, context`cancelled, context`told
      ensures Tracks(next, context) && Grown(t, next, others)
      ensures |next.x.checkpoints| == |t.x.checkpoints| + 1 && Concludes(next, stop)
      ensures !stop ==> Passed(next, |next.x.checkpoints|)
    {
      hide Perform, Ongoing, IsRun, SameTests, Grown, Passed, Flagged;
      ghost var a := Meanwhile(context, check.before, t, others);
      TraceShape(a, context.cancelled, context.told);
      ghost var e := Heartbeat(context.jobId, id, check.now, check.fraction, Some(check.text));
      ghost var before := context.cancelled;
      ghost var cancel := context.Record(check.now, check.text, check.fraction);
      RecordStep(a, e, before, context.told, cancel);
      ghost var b := Meanwhile(context, check.between, Recorded(a, e), others);
      stop := context.cancelled;
      CheckpointStep(t, a, e, b, others);
      TestStep(b, context.cancelled, context.told);
      next := Tested(b);
    }

    // One claimed job, from its first checkpoint to its finish.
    method Execute(job: int, checkpoints: seq<Checkpoint>, after: seq<Act>, end: HandlerEnd, finishedAt: int,
                   version: Option<string>, ghost t: Trace, ghost others: iset<Event>)
      returns (ghost next: Trace)
      requires Ongoing(t, false, None) && t.tables[|t.events|] == repo.jobs
      requires t.x.id == job && t.x.worker == id && t.x.checkpoints == []
      requires Among(after, others)
      requires forall c :: c in checkpoints ==> Among(c.before, others) && Among(c.between, others)
      modifies this`current, repo
      ensures current.None? && IsExecution(t, next, others) && next.tables[|next.events|] == repo.jobs
      ensures EndsAs(next, |checkpoints|, EndStatus(end)) && Reports(next, end, finishedAt, version)
    {
      hide Perform, Ongoing, IsRun, SameTests, Grown, Passed, Concludes, Flagged, Among, IsExecution;
      current := Some(job);
      var context := new JobContext(repo, job, id);
      var stop := false;
      next := t;
      NothingYet(t, others);
      for i := 0 to |checkpoints|
        invariant Tracks(next, context) && Grown(t, next, others) && !stop && fresh(context)
        invariant |next.x.checkpoints| == i && Passed(next, i)
      {
        ghost var before := next;
        stop, next := Pass(context, checkpoints[i], before, others);
        GrowsOn(t, before, next, others);
        if stop {
          break;
        }
      }
      if !stop {
        PassedConcludes(next);
      }
      ghost var last := next;
      next := Meanwhile(context, after, last, others);
      GrowsOn(t, last, next, others);
      ConcludesStays(last, next, stop);
      next := Conclude(context, stop, end, finishedAt, version, t, next, others);
      current := None;
    }

    // The finish reports what became of the handler.
    method Conclude(context: JobContext, stop: bool, end: HandlerEnd, now: int, version: Option<string>,
                    ghost first: Trace, ghost t: Trace, ghost others: iset<Event>)
      returns (ghost next: Trace)
      requires Tracks(t, context) && Grown(first, t, others) && Concludes(t, stop)
      modifies repo
      ensures IsExecution(first, next, others) && next.tables[|next.events|] == repo.jobs
      ensures next.x.checkpoints == t.x.checkpoints
      ensures next.x.finish < |next.events| && next.events[next.x.finish].Finish?
      ensures next.events[next.x.finish].status == if stop then Cancelled else EndStatus(end)
      ensures Reports(next, end, now, version)
    {
      hide Perform, Ongoing, IsRun, Grown, Concludes, Flagged, Follows;
      var status := if stop then Cancelled else EndStatus(end);
      var result := if status == Succeeded && end.Returned? then Some(end.result) else None;
      var error := if stop then Some("cancelled by the operator") else if end.Raised? then Some(end.error) else None;
      ghost var e := Finish(context.jobId, id, status, now, result, error, version);
      TraceShape(t, context.cancelled, context.told);
      FinishStep(t, e, context.cancelled, context.told);
      AfterGrows(t, e, others);
      GrowsOn(first, t, Ended(t, e), others);
      var _ := repo.FinishJob(context.jobId, id, status, now, result, error, version);
      next := Ended(t, e);
    }

    // Claims and executes one job, or finds nothing to claim. Whatever the other processes
    // do meanwhile, the run goes on with their steps and one execution of the job, which
    // leaves it ended.
    method RunOnce(now: int, types: set<string>, locked: set<int>, checkpoints: seq<Checkpoint>, after: seq<Act>,
                   end: HandlerEnd, finishedAt: int, version: Option<string>, ghost tables: seq<Table>,
                   ghost events: seq<Event>, ghost others: iset<Event>)
      returns (job: Option<int>, ghost next: Trace)
      requires IsRun(tables, events) && tables[|events|] == repo.jobs
      requires Among(after, others)
      requires forall c :: c in checkpoints ==> Among(c.before, others) && Among(c.between, others)
      modifies this`current, repo
      ensures job.None? ==> repo.jobs == old(repo.jobs) && forall k :: !Claimable(repo.jobs, k, types, locked)
      ensures job.Some? ==> IsOldest(old(repo.jobs), job.value, types, locked)
      ensures job.Some? ==> current.None? && |next.events| < |next.tables| && next.tables[|next.events|] == repo.jobs
      ensures job.Some? ==>
        var t := Begun(tables, events, Claim(id, now, types, locked), job.value, id);
        && IsExecution(t, next, others) && Reports(next, end, finishedAt, version)
        && EndsAs(next, |checkpoints|, if end.Returned? then Succeeded else Failed)
        && TerminalIn(repo.jobs, job.value) && repo.jobs[job.value].workerId == Some(id)
    {
      hide Perform, Ongoing, IsExecution, Follows, Among, EndsAs;
      next := Trace([], [], Execution(0, "", 0, [], [], 0), 0, None);
      job := repo.ClaimNext(id, now, types, locked);
      if job.Some? {
        ghost var e := Claim(id, now, types, locked);
        ClaimStep(tables, events, e, job.value, id);
        ghost var t := Begun(tables, events, e, job.value, id);
        next := Execute(job.value, checkpoints, after, end, finishedAt, version, t, others);
        ExecutionIsWhole(t, next, others);
      }
    }
  }
}
