// The supervisor and its advisory lock as the objects the worker keeps: every method is
// proved against the functions of Supervision
// (src/adaptive_quant/worker/scheduler.py:120-299, src/adaptive_quant/persistence/locks.py:32-74).
module Supervisors {
  import opened Wrappers
  import C = Settings
  import T = TradingMode
  import S = Supervision

  // The database's advisory locks: one session holds a name at a time.
  class LockTable {
    var owner: S.Locks

    constructor ()
      ensures owner == map[]
    {
      owner := map[];
    }
  }

  class AdvisoryLock {
    const table: LockTable
    const name: string
    const session: int
    var held: bool

    ghost predicate Valid()
      reads this, table
    {
      held ==> name in table.owner && table.owner[name] == session
    }

    constructor (table: LockTable, name: string, session: int)
      ensures this.table == table && this.name == name && this.session == session && !held
    {
      this.table, this.name, this.session, held := table, name, session, false;
    }

    // Try `k` of a call that waits up to `wait`, polling every `poll`, happens if the
    // tries before it find the lock busy.
    static ghost predicate InTime(k: nat, wait: int, poll: int) {
      k == 0 || (0 < wait && (k - 1) * poll < wait)
    }

    static lemma {:induction false} WaitsGrow(a: nat, b: nat, poll: int)
      requires a <= b && 0 < poll
      ensures a * poll <= b * poll
    {
      if a < b {
        WaitsGrow(a, b - 1, poll);
        assert b * poll == (b - 1) * poll + poll;
      }
    }

    static lemma NoLaterTry(k: nat, tries: nat, wait: int, poll: int)
      requires tries < k && tries * poll >= wait && (wait <= 0 || 0 < poll)
      ensures !InTime(k, wait, poll)
    {
      if 0 < wait {
        WaitsGrow(tries, k - 1, poll);
      }
    }

    // Tries at once and then every `poll` until `wait` is used up; between the tries other
    // sessions take and release locks, and `world(k)` is the table they leave for try `k`.
    // It gets the lock exactly when one of the tries finds it free, at the first such try,
    // and takes it from nobody; a failed call changes nothing of its own.
    method Acquire(wait: int, poll: int, world: nat -> S.Locks) returns (got: bool, ghost last: nat)
      requires Valid() && (wait <= 0 || 0 < poll)
      requires world(0) == table.owner
      modifies this`held, table
      ensures Valid() && got == held
      ensures old(held) ==> got && table.owner == old(table.owner)
      ensures !old(held) ==> (got <==> exists k: nat :: InTime(k, wait, poll) && name !in world(k))
      ensures !old(held) ==> InTime(last, wait, poll) && forall k: nat :: k < last ==> name in world(k)
      ensures !old(held) ==> if got then name !in world(last) && table.owner == world(last)[name := session]
                             else name in world(last) && table.owner == world(last)
    {
      last := 0;
      if held {
        return true, 0;
      }
      var waited, tries := 0, 0;
      while true
        invariant 0 <= tries && waited == tries * poll
        invariant !held
        invariant InTime(tries, wait, poll)
        invariant forall k: nat :: k < tries ==> name in world(k)
        decreases wait - waited
      {
        table.owner := world(tries);
        last := tries;
        if name !in table.owner {
          table.owner := table.owner[name := session];
          held := true;
          return true, last;
        }
        if waited >= wait {
          forall k: nat | InTime(k, wait, poll) ensures name in world(k) {
            if k > tries {
              NoLaterTry(k, tries, wait, poll);
            }
          }
          return false, last;
        }
        waited := waited + poll;
        tries := tries + 1;
      }
    }

    method Release()
      requires Valid()
      modifies this`held, table
      ensures !held
      ensures table.owner == if old(held) then old(table.owner) - {name} else old(table.owner)
    {
      if held {
        held := false;
        table.owner := table.owner - {name};
      }
    }
  }

  class SchedulerSupervisor {
    const env: S.Env
    const id: int
    const table: LockTable
    var scheduler: Option<S.Scheduler>
    var lock: AdvisoryLock?
    var retryAt: Option<int>
    var nextWake: Option<int>
    var startedIds: set<string>
    var status: S.Status

    ghost predicate Valid()
      reads this, lock, table
    {
      lock != null ==> lock.table == table && lock.session == id && lock.held && lock.Valid()
    }

    ghost function State(): S.Supervisor
      reads this
    {
      S.Supervisor(scheduler, if lock == null then None else Some(lock.name), retryAt, nextWake, startedIds, status)
    }

    constructor (env: S.Env, id: int, table: LockTable)
      ensures Valid() && State() == S.FRESH && this.env == env && this.id == id && this.table == table
    {
      this.env, this.id, this.table := env, id, table;
      scheduler, lock, retryAt, nextWake, startedIds := None, null, None, None, {};
      status := S.FRESH.status;
    }

    method SetStatus(state: S.RunState, detail: S.Reason, now: int)
      modifies this`status
      ensures State() == S.SetStatus(old(State()), state, detail, now)
    {
      if state != status.state {
        status := status.(since := Some(now));
      }
      status := status.(state := state, detail := detail);
    }

    method Stop()
      requires Valid()
      modifies this, lock, table
      ensures Valid() && lock == null && State() == S.StopNow(old(State()))
      ensures table.owner == S.Released(old(State()), old(table.owner))
    {
      if lock != null { // released before the engine holding it is disposed
        lock.Release();
        lock := null;
      }
      scheduler := None;
      nextWake := None;
    }

    method Mismatch(v: S.View) returns (reason: Option<S.Reason>)
      ensures reason == S.Mismatch(env, State(), v)
    {
      if v.mismatchConfig.None? {
        return Some(S.Unreadable);
      }
      var mode := T.ModeOf(env.deployment, v.mismatchConfig.value);
      if Some(mode) != status.mode {
        return Some(S.ModeNow(mode));
      }
      if !S.Fits(v.mismatchSwitch, mode) {
        return Some(S.RequestedFor(S.Requested(v.mismatchSwitch)));
      }
      var gone := startedIds - env.deployment.eligible(v.mismatchConfig.value, mode);
      return if gone != {} then Some(S.NoLongerEligible(gone)) else None;
    }

    method Refuse(reason: S.Reason, now: int)
      modifies this`status, this`retryAt
      ensures State() == S.SetStatus(old(State()), S.IsBlocked, reason, now).(retryAt := Some(now + S.RETRY_AFTER))
    {
      SetStatus(S.IsBlocked, reason, now);
      retryAt := Some(now + S.RETRY_AFTER);
    }

    method Start(v: S.View)
      requires Valid() && lock == null
      modifies this, table
      ensures Valid() && (lock == null || fresh(lock))
      ensures var r := S.Start(env, id, old(State()), old(table.owner), v);
        State() == r.supervisor && table.owner == r.locks
    {
      if v.startConfig.None? {
        Refuse(S.Unreadable, v.now);
        return;
      }
      var config := v.startConfig.value;
      var mode := T.ModeOf(env.deployment, config);
      var started := env.deployment.eligible(config, mode);
      if mode == C.LIVE {
        Refuse(S.LiveNeverRuns, v.now);
        return;
      }
      if !S.Fits(v.startSwitch, mode) {
        Refuse(S.RequestedFor(S.Requested(v.startSwitch)), v.now);
        return;
      }
      if mode == C.PAPER && !v.verified {
        Refuse(S.NotVerified, v.now);
        return;
      }
      if !v.builds || (mode != C.PAPER && mode != C.SHADOW) || started == {} {
        Refuse(S.NotBuilt, v.now);
        return;
      }
      if mode == C.PAPER && !v.accountOk {
        Refuse(S.AccountRefused, v.now);
        return;
      }
      var candidate := new AdvisoryLock(table, S.LockName(env), id);
      var owner := table.owner;
      var got, _ := candidate.Acquire(0, 2_000_000, _ => owner);
      assert got <==> S.LockName(env) !in owner by {
        assert AdvisoryLock.InTime(0, 0, 2_000_000);
      }
      if !got {
        Refuse(S.LockHeldElsewhere, v.now);
        return;
      }
      scheduler := Some(S.Scheduler(mode, started));
      lock := candidate;
      startedIds := started;
      nextWake := None;
      status := status.(mode := Some(mode), version := Some(env.version(config)), restartNeeded := false);
      SetStatus(S.IsRunning, S.RunningIn(mode), v.now);
    }

    method Tick(v: S.View) returns (ticked: bool)
      requires Valid()
      modifies this`status, this`nextWake
      ensures Valid()
      ensures var r := S.Tick(env, old(State()), table.owner, v); State() == r.supervisor && ticked == r.ticked
    {
      status := status.(restartNeeded := v.tickConfig.None? || Some(env.version(v.tickConfig.value)) != status.version);
      if nextWake.Some? && v.now < nextWake.value {
        return false;
      }
      if v.tick.Some? {
        nextWake := v.tick;
      } else {
        status := status.(detail := S.StepFailed);
        nextWake := Some(v.now + S.RETRY_AFTER);
      }
      return true;
    }

    // One supervision round, called every few seconds.
    method Step(v: S.View) returns (ticked: bool)
      requires Valid() && S.Consistent(env, id, State(), table.owner)
      modifies this, lock, table
      ensures Valid() && (lock == null || lock == old(lock) || fresh(lock))
      ensures var r := S.Step(env, id, old(State()), old(table.owner), v);
        State() == r.supervisor && table.owner == r.locks && ticked == r.ticked
      ensures S.Consistent(env, id, State(), table.owner)
    {
      S.StepKeepsConsistent(env, id, State(), table.owner, v);
      hide S.Start, S.Tick, S.Mismatch, S.Consistent;
      ticked := false;
      var desired := T.Desired(v.switch);
      status := status.(gate := v.gate, desired := desired);
      if !v.gate || !desired {
        if scheduler.Some? {
          Stop();
        }
        SetStatus(if v.gate || !desired then S.IsStopped else S.IsBlocked,
                  if !v.gate then S.MasterGateOff else S.OperatorStopped, v.now);
        retryAt := None;
        return;
      }
      if scheduler.Some? {
        var mismatch := Mismatch(v);
        if mismatch.Some? {
          Stop();
          SetStatus(S.IsStopped, mismatch.value, v.now);
          return;
        }
      }
      if scheduler.None? {
        if retryAt.Some? && v.now < retryAt.value {
          return;
        }
        Start(v);
        if scheduler.None? {
          return;
        }
      }
      ticked := Tick(v);
    }
  }
}
