// Scheduler supervision in the worker processes and the single-instance lock they share
// (src/adaptive_quant/worker/scheduler.py:103-299, src/adaptive_quant/persistence/locks.py:32-74).
module Supervision {
  import opened Wrappers
  import opened Settings
  import opened TradingMode

  const RETRY_AFTER := 60_000_000 // microseconds

  // What a worker process is deployed with.
  datatype Env = Env(deployment: Deployment, version: Config -> string, environment: string)

  datatype RunState = IsStopped | IsRunning | IsBlocked

  datatype Reason =
    | Idle
    | MasterGateOff
    | OperatorStopped
    | Unreadable
    | ModeNow(mode: string)
    | RequestedFor(wanted: Option<string>)
    | NoLongerEligible(ids: set<string>)
    | LiveNeverRuns
    | NotVerified
    | NotBuilt
    | AccountRefused
    | LockHeldElsewhere
    | RunningIn(mode: string)
    | StepFailed

  datatype Status = Status(gate: bool, desired: bool, state: RunState, detail: Reason, since: Option<int>,
                           mode: Option<string>, version: Option<string>, restartNeeded: bool)

  // The scheduler with what its transmit guard was built for.
  datatype Scheduler = Scheduler(mode: string, started: set<string>)

  datatype Supervisor = Supervisor(
    scheduler: Option<Scheduler>, lock: Option<string>, retryAt: Option<int>, nextWake: Option<int>,
    startedIds: set<string>, status: Status)

  const FRESH := Supervisor(None, None, None, None, {}, Status(false, false, IsStopped, Idle, None, None, None, false))

  // Who holds which advisory lock; the hash of the name is taken to be its own key.
  type Locks = map<string, int>

  function LockName(env: Env): string {
    "aq-scheduler-" + env.environment
  }

  // What one round reads, in the order it reads it: a configuration that does not resolve
  // reads as None.
  datatype View = View(
    now: int, gate: bool, switch: Option<Switch>,
    mismatchConfig: Option<Config>, mismatchSwitch: Option<Switch>,
    startConfig: Option<Config>, startSwitch: Option<Switch>, verified: bool, builds: bool, accountOk: bool,
    tickConfig: Option<Config>, tick: Option<int>)

  datatype Round = Round(supervisor: Supervisor, locks: Locks, ticked: bool)

  function SetStatus(s: Supervisor, state: RunState, detail: Reason, now: int): Supervisor {
    s.(status := s.status.(state := state, detail := detail,
      since := if state != s.status.state then Some(now) else s.status.since))
  }

  // Releases the lock first, then drops the scheduler.
  function StopNow(s: Supervisor): Supervisor {
    s.(lock := None, scheduler := None, nextWake := None)
  }

  function Released(s: Supervisor, locks: Locks): Locks {
    if s.lock.Some? then locks - {s.lock.value} else locks
  }

  predicate Fits(switch: Option<Switch>, mode: string) {
    switch.Some? && switch.value.mode.Some? ==> switch.value.mode.value == mode
  }

  function Requested(switch: Option<Switch>): Option<string> {
    if switch.Some? then switch.value.mode else None
  }

  // Why a running scheduler no longer matches what the operator wants.
  function Mismatch(env: Env, s: Supervisor, v: View): Option<Reason> {
    if v.mismatchConfig.None? then Some(Unreadable)
    else
      var mode := ModeOf(env.deployment, v.mismatchConfig.value);
      if Some(mode) != s.status.mode then Some(ModeNow(mode))
      else if !Fits(v.mismatchSwitch, mode) then Some(RequestedFor(Requested(v.mismatchSwitch)))
      else
        var gone := s.startedIds - env.deployment.eligible(v.mismatchConfig.value, mode);
        if gone != {} then Some(NoLongerEligible(gone)) else None
  }

  // Why a start is refused; the lock is tried last.
  function StartRefusal(env: Env, locks: Locks, v: View): Option<Reason> {
    if v.startConfig.None? then Some(Unreadable)
    else
      var mode := ModeOf(env.deployment, v.startConfig.value);
      if mode == LIVE then Some(LiveNeverRuns)
      else if !Fits(v.startSwitch, mode) then Some(RequestedFor(Requested(v.startSwitch)))
      else if mode == PAPER && !v.verified then Some(NotVerified)
      else if !v.builds || (mode != PAPER && mode != SHADOW)
        || env.deployment.eligible(v.startConfig.value, mode) == {} then Some(NotBuilt)
      else if mode == PAPER && !v.accountOk then Some(AccountRefused)
      else if LockName(env) in locks then Some(LockHeldElsewhere)
      else None
  }

  function Start(env: Env, id: int, s: Supervisor, locks: Locks, v: View): Round {
    var refusal := StartRefusal(env, locks, v);
    if refusal.Some? then
      Round(SetStatus(s, IsBlocked, refusal.value, v.now).(retryAt := Some(v.now + RETRY_AFTER)), locks, false)
    else
      var config := v.startConfig.value;
      var mode := ModeOf(env.deployment, config);
      var started := env.deployment.eligible(config, mode);
      var running := s.(
        scheduler := Some(Scheduler(mode, started)), lock := Some(LockName(env)), startedIds := started,
        nextWake := None,
        status := s.status.(mode := Some(mode), version := Some(env.version(config)), restartNeeded := false));
      Round(SetStatus(running, IsRunning, RunningIn(mode), v.now), locks[LockName(env) := id], false)
  }

  function Tick(env: Env, s: Supervisor, locks: Locks, v: View): Round {
    var restart := v.tickConfig.None? || Some(env.version(v.tickConfig.value)) != s.status.version;
    var checked := s.(status := s.status.(restartNeeded := restart));
    if s.nextWake.Some? && v.now < s.nextWake.value then Round(checked, locks, false)
    else if v.tick.Some? then Round(checked.(nextWake := v.tick), locks, true)
    else Round(checked.(nextWake := Some(v.now + RETRY_AFTER), status := checked.status.(detail := StepFailed)),
               locks, true)
  }

  // One supervision round of worker `id`.
  function Step(env: Env, id: int, s: Supervisor, locks: Locks, v: View): Round {
    var desired := Desired(v.switch);
    var s := s.(status := s.status.(gate := v.gate, desired := desired));
    if !v.gate || !desired then
      var stopped := if s.scheduler.Some? then StopNow(s) else s;
      var left := if s.scheduler.Some? then Released(s, locks) else locks;
      var state := if v.gate || !desired then IsStopped else IsBlocked;
      Round(SetStatus(stopped, state, if !v.gate then MasterGateOff else OperatorStopped, v.now).(retryAt := None),
        left, false)
    else if s.scheduler.Some? then
      var mismatch := Mismatch(env, s, v);
      if mismatch.Some? then Round(SetStatus(StopNow(s), IsStopped, mismatch.value, v.now), Released(s, locks), false)
      else Tick(env, s, locks, v)
    else if s.retryAt.Some? && v.now < s.retryAt.value then Round(s, locks, false)
    else
      var r := Start(env, id, s, locks, v);
      if r.supervisor.scheduler.None? then r else Tick(env, r.supervisor, r.locks, v)
  }

  // ------------------------------------------------------------ one round

  // The scheduler exists exactly while the lock is held, and everything the supervisor
  // keeps about it is about that scheduler.
  predicate Consistent(env: Env, id: int, s: Supervisor, locks: Locks) {
    && (s.scheduler.Some? <==> s.lock.Some?)
    && (s.scheduler.Some? <==> s.status.state == IsRunning)
    && (s.lock.Some? ==> s.lock.value == LockName(env) && s.lock.value in locks && locks[s.lock.value] == id)
    && (s.scheduler.Some? ==>
          && s.status.mode == Some(s.scheduler.value.mode)
          && s.startedIds == s.scheduler.value.started
          && (s.scheduler.value.mode == PAPER || s.scheduler.value.mode == SHADOW))
  }

  lemma StartKeepsConsistent(env: Env, id: int, s: Supervisor, locks: Locks, v: View)
    requires Consistent(env, id, s, locks) && s.scheduler.None?
    ensures var r := Start(env, id, s, locks, v); Consistent(env, id, r.supervisor, r.locks)
  {
    hide LockName, Fits, Requested;
  }

  lemma TickKeepsConsistent(env: Env, id: int, s: Supervisor, locks: Locks, v: View)
    requires Consistent(env, id, s, locks)
    ensures var r := Tick(env, s, locks, v); Consistent(env, id, r.supervisor, r.locks)
  {
    hide LockName;
  }

  lemma StepKeepsConsistent(env: Env, id: int, s: Supervisor, locks: Locks, v: View)
    requires Consistent(env, id, s, locks)
    ensures var r := Step(env, id, s, locks, v); Consistent(env, id, r.supervisor, r.locks)
  {
    var observed := s.(status := s.status.(gate := v.gate, desired := Desired(v.switch)));
    if s.scheduler.None? {
      StartKeepsConsistent(env, id, observed, locks, v);
      var r := Start(env, id, observed, locks, v);
      TickKeepsConsistent(env, id, r.supervisor, r.locks, v);
    } else {
      TickKeepsConsistent(env, id, observed, locks, v);
    }
    hide Start, Tick, Mismatch, LockName, Desired;
  }

  // A round touches no other lock, and takes its own only when nobody holds it.
  lemma StepOfLocks(env: Env, id: int, s: Supervisor, locks: Locks, v: View)
    requires Consistent(env, id, s, locks)
    ensures var r := Step(env, id, s, locks, v);
      && (forall name :: name != LockName(env) ==>
            (name in r.locks <==> name in locks) && (name in r.locks && name in locks ==> r.locks[name] == locks[name]))
      && (LockName(env) in r.locks && r.supervisor.lock.None? ==>
            LockName(env) in locks && r.locks[LockName(env)] == locks[LockName(env)])
      && (LockName(env) in locks && s.lock.None? ==> r.locks == locks && r.supervisor.lock.None?)
      && (s.lock.Some? && r.supervisor.lock.None? ==> LockName(env) !in r.locks)
  {
  }

  // What must hold for a supervisor that runs to keep running.
  predicate MayKeepRunning(env: Env, s: Supervisor, v: View) {
    && s.scheduler.Some? && v.mismatchConfig.Some?
    && ModeOf(env.deployment, v.mismatchConfig.value) == s.scheduler.value.mode
    && Fits(v.mismatchSwitch, s.scheduler.value.mode)
    && s.scheduler.value.started <= env.deployment.eligible(v.mismatchConfig.value, s.scheduler.value.mode)
  }

  // What must hold for one that does not run to start.
  predicate MayStart(env: Env, s: Supervisor, locks: Locks, v: View) {
    && s.scheduler.None? && !(s.retryAt.Some? && v.now < s.retryAt.value)
    && v.startConfig.Some?
    && var mode := ModeOf(env.deployment, v.startConfig.value);
    && (mode == SHADOW || (mode == PAPER && v.verified && v.accountOk))
    && Fits(v.startSwitch, mode) && v.builds && env.deployment.eligible(v.startConfig.value, mode) != {}
    && LockName(env) !in locks
  }

  // After a round the scheduler runs if and only if the gate and the operator's switch
  // are on and it may keep running or start; only then can it have ticked, and a round
  // that finds anything wrong with a running one releases the lock.
  lemma RunsIff(env: Env, id: int, s: Supervisor, locks: Locks, v: View)
    requires Consistent(env, id, s, locks)
    ensures var r := Step(env, id, s, locks, v);
      && (r.supervisor.scheduler.Some? <==>
            v.gate && Desired(v.switch) && (MayKeepRunning(env, s, v) || MayStart(env, s, locks, v)))
      && (r.ticked ==> r.supervisor.scheduler.Some?)
      && (s.scheduler.Some? && r.supervisor.scheduler.Some? ==> r.supervisor.scheduler == s.scheduler)
      && (s.scheduler.Some? && r.supervisor.scheduler.None? ==> LockName(env) !in r.locks)
  {
    var gone := s.startedIds - (if v.mismatchConfig.Some? && s.scheduler.Some?
      then env.deployment.eligible(v.mismatchConfig.value, s.scheduler.value.mode) else {});
    assert gone == {} <==> s.startedIds <= s.startedIds - gone;
    if MayKeepRunning(env, s, v) {
      assert s.startedIds - env.deployment.eligible(v.mismatchConfig.value, s.scheduler.value.mode) == {};
    }
  }

  // The transmit guard and the supervisor agree: reading the same rows, the guard built
  // for a running scheduler lets an order through exactly when the next round would let
  // that scheduler run on.
  lemma GuardAgrees(env: Env, id: int, s: Supervisor, locks: Locks, v: View)
    requires Consistent(env, id, s, locks) && s.scheduler.Some?
    requires v.mismatchConfig.Some? && v.mismatchSwitch == v.switch
    ensures Guard(env.deployment, v.gate, s.scheduler.value.mode, s.scheduler.value.started, v.mismatchConfig.value,
      v.switch) == None
       <==> Step(env, id, s, locks, v).supervisor.scheduler == s.scheduler
  {
    RunsIff(env, id, s, locks, v);
    var gone := s.scheduler.value.started - env.deployment.eligible(v.mismatchConfig.value, s.scheduler.value.mode);
    assert gone == {}
      <==> s.scheduler.value.started <= env.deployment.eligible(v.mismatchConfig.value, s.scheduler.value.mode) by {
      if gone == {} {
        forall x | x in s.scheduler.value.started
          ensures x in env.deployment.eligible(v.mismatchConfig.value, s.scheduler.value.mode)
        {
          assert x !in gone;
        }
      }
    }
    hide Step, Consistent;
  }

  // A refused start is not tried again for a minute while the operator still wants it.
  lemma RefusedStartWaits(env: Env, id: int, s: Supervisor, locks: Locks, v: View, later: Locks, w: View)
    requires Consistent(env, id, s, locks) && s.scheduler.None? && v.gate && Desired(v.switch)
    requires !(s.retryAt.Some? && v.now < s.retryAt.value) && StartRefusal(env, locks, v).Some?
    requires w.gate && Desired(w.switch) && v.now <= w.now < v.now + RETRY_AFTER
    ensures var r := Step(env, id, s, locks, v);
      r.supervisor.status.detail == StartRefusal(env, locks, v).value
      && Step(env, id, r.supervisor, later, w) == Round(r.supervisor, later, false)
  {
  }

  // ------------------------------------------------------------ many workers

  // Worker processes by id; `envs` is what each is deployed with.
  datatype Cluster = Cluster(workers: map<int, Supervisor>, locks: Locks)

  datatype Event =
    | Boot(id: int)
    | Supervise(id: int, view: View)
    | Shutdown(id: int) // stop("worker shutting down"), or a crash: the connection closes

  function Perform(envs: int -> Env, s: Cluster, e: Event): Cluster {
    match e
    case Boot(id) => if id in s.workers then s else s.(workers := s.workers[id := FRESH])
    case Supervise(id, view) =>
      if id !in s.workers then s
      else
        var r := Step(envs(id), id, s.workers[id], s.locks, view);
        Cluster(s.workers[id := r.supervisor], r.locks)
    case Shutdown(id) =>
      if id !in s.workers then s else Cluster(s.workers - {id}, Released(s.workers[id], s.locks))
  }

  ghost predicate Invariant(envs: int -> Env, s: Cluster) {
    && (forall id :: id in s.workers ==> Consistent(envs(id), id, s.workers[id], s.locks))
    && (forall name :: name in s.locks ==> s.locks[name] in s.workers && s.workers[s.locks[name]].lock == Some(name))
  }

  // A round of one worker leaves what another one relies on alone.
  lemma OthersStay(mine: Env, id: int, s: Supervisor, locks: Locks, v: View, env: Env, other: int, o: Supervisor)
    requires Consistent(mine, id, s, locks) && Consistent(env, other, o, locks) && id != other
    ensures Consistent(env, other, o, Step(mine, id, s, locks, v).locks)
  {
    StepOfLocks(mine, id, s, locks, v);
    hide Step, LockName;
  }

  // The holder of each lock after a round.
  lemma HolderAfter(env: Env, id: int, s: Supervisor, locks: Locks, v: View, name: string)
    requires Consistent(env, id, s, locks)
    ensures var r := Step(env, id, s, locks, v);
      name in r.locks ==>
        || (r.locks[name] == id && r.supervisor.lock == Some(name))
        || (name in locks && r.locks[name] == locks[name] && s.lock != Some(name))
        || (name in locks && r.locks[name] == locks[name] && r.supervisor.lock == s.lock)
  {
    StepOfLocks(env, id, s, locks, v);
    StepKeepsConsistent(env, id, s, locks, v);
    hide Step, LockName;
  }

  lemma SuperviseKeeps(envs: int -> Env, s: Cluster, id: int, v: View)
    requires Invariant(envs, s) && id in s.workers
    ensures Invariant(envs, Perform(envs, s, Supervise(id, v)))
  {
    var next := Perform(envs, s, Supervise(id, v));
    StepKeepsConsistent(envs(id), id, s.workers[id], s.locks, v);
    forall other | other in next.workers
      ensures Consistent(envs(other), other, next.workers[other], next.locks)
    {
      if other != id {
        OthersStay(envs(id), id, s.workers[id], s.locks, v, envs(other), other, s.workers[other]);
      }
    }
    forall name | name in next.locks
      ensures next.locks[name] in next.workers && next.workers[next.locks[name]].lock == Some(name)
    {
      HolderAfter(envs(id), id, s.workers[id], s.locks, v, name);
    }
    hide Step, Consistent;
  }

  lemma StepKeeps(envs: int -> Env, s: Cluster, e: Event)
    requires Invariant(envs, s)
    ensures Invariant(envs, Perform(envs, s, e))
  {
    hide Step, LockName;
    if e.Supervise? && e.id in s.workers {
      SuperviseKeeps(envs, s, e.id, e.view);
    }
  }

  ghost predicate IsRun(envs: int -> Env, states: seq<Cluster>, events: seq<Event>) {
    && |states| == |events| + 1
    && states[0] == Cluster(map[], map[])
    && (forall i :: 0 <= i < |events| ==> states[i + 1] == Perform(envs, states[i], events[i]))
  }

  lemma {:induction false} InvariantHolds(envs: int -> Env, states: seq<Cluster>, events: seq<Event>, n: nat)
    requires IsRun(envs, states, events) && n <= |events|
    ensures Invariant(envs, states[n])
  {
    if n > 0 {
      InvariantHolds(envs, states, events, n - 1);
      hide Perform, Invariant;
      StepKeeps(envs, states[n - 1], events[n - 1]);
    }
  }

  // However the workers' rounds, restarts and shutdowns interleave, two workers of one
  // environment never run the scheduler at the same time.
  lemma AtMostOneRuns(envs: int -> Env, states: seq<Cluster>, events: seq<Event>, n: nat, a: int, b: int)
    requires IsRun(envs, states, events) && n <= |events|
    requires a in states[n].workers && states[n].workers[a].scheduler.Some?
    requires b in states[n].workers && states[n].workers[b].scheduler.Some?
    requires envs(a).environment == envs(b).environment
    ensures a == b
  {
    InvariantHolds(envs, states, events, n);
  }

  // Whenever a worker's scheduler ticks, it ticks alone in its environment, with gate,
  // switch, mode and strategies all as wanted in that very round.
  lemma TicksAreAllowed(envs: int -> Env, states: seq<Cluster>, events: seq<Event>, n: nat)
    requires IsRun(envs, states, events) && n < |events|
    requires events[n].Supervise? && events[n].id in states[n].workers
    requires Step(envs(events[n].id), events[n].id, states[n].workers[events[n].id], states[n].locks,
      events[n].view).ticked
    ensures var id, v, s := events[n].id, events[n].view, states[n].workers[events[n].id];
      && v.gate && Desired(v.switch)
      && (MayKeepRunning(envs(id), s, v) || MayStart(envs(id), s, states[n].locks, v))
      && (forall other ::
            other in states[n + 1].workers && other != id && envs(other).environment == envs(id).environment ==>
              states[n + 1].workers[other].scheduler.None?)
  {
    var id, v, s := events[n].id, events[n].view, states[n].workers[events[n].id];
    InvariantHolds(envs, states, events, n);
    RunsIff(envs(id), id, s, states[n].locks, v);
    hide Step, Consistent, MayKeepRunning, MayStart;
    forall other | other in states[n + 1].workers && other != id && envs(other).environment == envs(id).environment
      ensures states[n + 1].workers[other].scheduler.None?
    {
      if states[n + 1].workers[other].scheduler.Some? {
        AtMostOneRuns(envs, states, events, n + 1, id, other);
      }
    }
  }
}
