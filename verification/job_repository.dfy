// The job methods of the control repository (src/adaptive_quant/persistence/control.py):
// each changes the job table in place as one transaction, exactly as Jobs.Perform says.
module JobRepositories {
  import opened Wrappers
  import opened Jobs

  class JobRepository {
    var jobs: Table

    constructor ()
      ensures jobs == map[]
    {
      jobs := map[];
    }

    // Queues a job, or returns an identical one that is still active.
    method CreateJob(newId: int, jobType: string, params: Params, actor: string, now: int, retryOf: Option<int>,
      dedupe: bool)
      returns (id: int, created: bool)
      requires newId !in jobs
      modifies this
      ensures Step(jobs, if created then Created else Existing)
           == Perform(old(jobs), Create(newId, jobType, params, actor, now, retryOf, dedupe))
      ensures id in jobs && (created <==> id == newId)
      ensures !created ==> Identical(jobs[id], jobType, params)
    {
      if dedupe {
        var rest := jobs.Items;
        while rest != {}
          invariant rest <= jobs.Items
          invariant forall item :: item in jobs.Items && item !in rest ==> !Identical(item.1, jobType, params)
          decreases |rest|
        {
          var item :| item in rest;
          if Identical(item.1, jobType, params) {
            assert item.0 in jobs && Identical(jobs[item.0], jobType, params);
            return item.0, false;
          }
          rest := rest - {item};
        }
        forall k | k in jobs ensures !Identical(jobs[k], jobType, params) {
          assert (k, jobs[k]) in jobs.Items;
        }
      }
      jobs := jobs[newId := NewJob(jobType, params, actor, now, retryOf)];
      return newId, true;
    }

    // Claims the oldest queued job of the given types that nobody else has locked.
    method ClaimNext(worker: string, now: int, types: set<string>, locked: set<int>) returns (claimed: Option<int>)
      modifies this
      ensures Step(jobs, Claimed(claimed)) == Perform(old(jobs), Claim(worker, now, types, locked))
      ensures claimed.Some? ==> IsOldest(old(jobs), claimed.value, types, locked)
      ensures claimed.None? ==> jobs == old(jobs) && forall k :: !Claimable(jobs, k, types, locked)
    {
      var rest := jobs.Items;
      claimed := None;
      while rest != {}
        invariant rest <= jobs.Items
        invariant jobs == old(jobs)
        invariant claimed.Some? ==> Claimable(jobs, claimed.value, types, locked)
        invariant forall item :: item in jobs.Items && item !in rest && Claimable(jobs, item.0, types, locked) ==>
          claimed.Some? && Before(jobs, claimed.value, item.0)
        decreases |rest|
      {
        var item :| item in rest;
        if Claimable(jobs, item.0, types, locked) && (claimed.None? || !Before(jobs, claimed.value, item.0)) {
          claimed := Some(item.0);
        }
        rest := rest - {item};
      }
      forall k | Claimable(jobs, k, types, locked)
        ensures claimed.Some? && Before(jobs, claimed.value, k)
      {
        assert (k, jobs[k]) in jobs.Items;
      }
      if claimed.Some? {
        OldestIsUnique(jobs, claimed.value, types, locked);
        jobs := jobs[claimed.value := Start(jobs[claimed.value], worker, now)];
      }
    }

    // Refreshes a running job; true if its cancellation was requested.
    method RecordHeartbeat(id: int, worker: string, now: int, progress: Option<real>, text: Option<string>)
      returns (cancel: bool)
      modifies this
      ensures Step(jobs, CancelFlag(cancel)) == Perform(old(jobs), Heartbeat(id, worker, now, progress, text))
    {
      if OwnedBy(jobs, id, worker) {
        jobs := jobs[id := Beat(jobs[id], now, progress, text)];
      }
      return id in jobs && jobs[id].cancelRequested;
    }

    method FinishJob(id: int, worker: string, status: Status, now: int, result: Option<string>, error: Option<string>,
                     version: Option<string>)
      returns (outcome: Outcome)
      modifies this
      ensures Step(jobs, outcome) == Perform(old(jobs), Finish(id, worker, status, now, result, error, version))
    {
      if !status.Terminal() {
        return Refused;
      }
      if !OwnedBy(jobs, id, worker) {
        return Finished(false);
      }
      jobs := jobs[id := End(jobs[id], status, now, result, error, version)];
      return Finished(true);
    }

    method RequestJobCancel(id: int, now: int) returns (outcome: Outcome)
      modifies this
      ensures Step(jobs, outcome) == Perform(old(jobs), RequestCancel(id, now))
    {
      if id !in jobs {
        return Refused;
      }
      match jobs[id].status {
        case Queued =>
          jobs := jobs[id := CancelQueued(jobs[id], now)];
          return Row(true);
        case Running =>
          jobs := jobs[id := CancelRunning(jobs[id])];
          return Row(false);
        case _ =>
          return Refused;
      }
    }

    // Fails the running jobs whose worker stopped heart-beating, and counts them.
    method FailOrphanedJobs(now: int, staleAfter: int) returns (count: nat)
      modifies this
      ensures Step(jobs, OrphansFailed) == Perform(old(jobs), FailOrphans(now, staleAfter))
      ensures count == |set id | id in old(jobs) && Stale(old(jobs)[id], now - staleAfter)|
    {
      var stale := set id | id in jobs && Stale(jobs[id], now - staleAfter);
      jobs := map id | id in jobs :: if Stale(jobs[id], now - staleAfter) then Orphan(jobs[id], now) else jobs[id];
      return |stale|;
    }
  }
}
