// What one supervision round shows and when a scheduler ticks
// (src/adaptive_quant/worker/scheduler.py:147-299), and who keeps whom from running.
module SupervisionLaws {
  import opened Wrappers
  import opened Settings
  import T = TradingMode
  import opened Supervision

  const MINUTE := 60_000_000 // microseconds

  predicate IsWanted(v: View) {
    v.gate && v.switch.Some? && v.switch.value.running
  }

  // The switch asks for no other mode.
  predicate AsksFor(switch: Option<T.Switch>, mode: string) {
    switch.None? || switch.value.mode.None? || switch.value.mode.value == mode
  }

  // A running scheduler goes on in a round: the mode, the request and the strategies are
  // as when it started.
  ghost predicate GoesOn(env: Env, s: Supervisor, v: View) {
    && s.scheduler.Some? && v.mismatchConfig.Some?
    && T.ModeOf(env.deployment, v.mismatchConfig.value) == s.scheduler.value.mode
    && AsksFor(v.mismatchSwitch, s.scheduler.value.mode)
    && forall id :: id in s.scheduler.value.started ==>
      id in env.deployment.eligible(v.mismatchConfig.value, s.scheduler.value.mode)
  }

  // One is started in a round: not before the minute after a refusal, in paper or shadow
  // mode as asked for, with a verified account for paper, strategies to run and the lock.
  predicate Begins(env: Env, s: Supervisor, locks: Locks, v: View) {
    && s.scheduler.None? && (s.retryAt.Some? ==> s.retryAt.value <= v.now)
    && v.startConfig.Some?
    && var mode := T.ModeOf(env.deployment, v.startConfig.value);
    && (mode == "shadow" || (mode == "paper" && v.verified && v.accountOk))
    && AsksFor(v.startSwitch, mode) && v.builds && env.deployment.eligible(v.startConfig.value, mode) != {}
    && LockName(env) !in locks
  }

  // Exactly what runs after a round, and since when.
  lemma RoundRuns(env: Env, id: int, s: Supervisor, locks: Locks, v: View)
    requires Consistent(env, id, s, locks)
    ensures var now := Step(env, id, s, locks, v).supervisor;
      && (IsWanted(v) && GoesOn(env, s, v) ==> now.scheduler == s.scheduler)
      && (IsWanted(v) && Begins(env, s, locks, v) ==>
            var mode := T.ModeOf(env.deployment, v.startConfig.value);
            && now.scheduler == Some(Scheduler(mode, env.deployment.eligible(v.startConfig.value, mode)))
            && now.status.version == Some(env.version(v.startConfig.value)))
      && (now.scheduler.Some? ==> IsWanted(v) && (GoesOn(env, s, v) || Begins(env, s, locks, v)))
  {
    RunsIff(env, id, s, locks, v);
    GoesOnIs(env, s, v);
    assert Begins(env, s, locks, v) <==> MayStart(env, s, locks, v);
    hide GoesOn, Consistent, LockName;
  }

  lemma GoesOnIs(env: Env, s: Supervisor, v: View)
    ensures GoesOn(env, s, v) <==> MayKeepRunning(env, s, v)
  {
  }

  // A scheduler ticks in every round that finds it running or starts it, except before the
  // moment its last tick named; a tick that fails is tried again after a minute.
  lemma TickedIff(env: Env, id: int, s: Supervisor, locks: Locks, v: View)
    requires Consistent(env, id, s, locks)
    ensures var r := Step(env, id, s, locks, v);
      && (r.ticked <==> r.supervisor.scheduler.Some?
                        && (s.scheduler.Some? && s.nextWake.Some? ==> s.nextWake.value <= v.now))
      && (r.ticked ==> r.supervisor.nextWake == Some(if v.tick.Some? then v.tick.value else v.now + MINUTE))
      && (!r.ticked && r.supervisor.scheduler.Some? ==> r.supervisor.nextWake == s.nextWake)
      && (r.ticked && v.tick.None? ==> r.supervisor.status.detail == StepFailed)
  {
    RunsIff(env, id, s, locks, v);
    hide LockName, Fits, T.ModeOf;
  }

  // A start is due: nothing runs, and a minute has passed since the last refusal.
  predicate IsTried(s: Supervisor, v: View) {
    s.scheduler.None? && (s.retryAt.Some? ==> s.retryAt.value <= v.now)
  }

  // What the status says: the gate and the request as read; running, stopped, or blocked
  // when a start was refused or the gate alone is off; and whether the running scheduler
  // was started with another configuration than the one in force.
  lemma StatusTells(env: Env, id: int, s: Supervisor, locks: Locks, v: View)
    requires Consistent(env, id, s, locks)
    ensures var now := Step(env, id, s, locks, v).supervisor;
      && now.status.gate == v.gate && now.status.desired == (v.switch.Some? && v.switch.value.running)
      && (!IsWanted(v) ==> now.retryAt.None?)
      && (!IsWanted(v) ==> now.status.state == if !v.gate && now.status.desired then IsBlocked else IsStopped)
      && (IsWanted(v) && s.scheduler.Some? && !GoesOn(env, s, v) ==> now.status.state == IsStopped)
      && (IsWanted(v) && IsTried(s, v) && !Begins(env, s, locks, v) ==>
            now.status.state == IsBlocked && now.retryAt == Some(v.now + MINUTE))
      && (now.scheduler.Some? ==> now.status.state == IsRunning)
      && (now.scheduler.Some? ==>
            now.status.restartNeeded
              == (v.tickConfig.None? || Some(env.version(v.tickConfig.value)) != now.status.version))
      && now.status.since == (if now.status.state != s.status.state then Some(v.now) else s.status.since)
  {
    RunsIff(env, id, s, locks, v);
    GoesOnIs(env, s, v);
    assert Begins(env, s, locks, v) <==> MayStart(env, s, locks, v);
    StepKeepsConsistent(env, id, s, locks, v);
    hide GoesOn, LockName, MayKeepRunning, MayStart, Begins;
  }

  // A reason that holds for stopping a running scheduler, or for refusing to start one.
  predicate IsReasonToStop(env: Env, s: Supervisor, v: View, reason: Reason) {
    match reason
    case Unreadable => v.mismatchConfig.None?
    case ModeNow(mode) =>
      && v.mismatchConfig.Some? && s.scheduler.Some?
      && mode == T.ModeOf(env.deployment, v.mismatchConfig.value) != s.scheduler.value.mode
    case RequestedFor(wanted) =>
      && s.scheduler.Some? && v.mismatchSwitch.Some? && wanted == v.mismatchSwitch.value.mode
      && wanted.Some? && wanted.value != s.scheduler.value.mode
    case NoLongerEligible(ids) =>
      && v.mismatchConfig.Some? && s.scheduler.Some?
      && ids == s.scheduler.value.started - env.deployment.eligible(v.mismatchConfig.value,
        s.scheduler.value.mode) != {}
    case _ => false
  }

  predicate IsAsked(switch: Option<T.Switch>, wanted: Option<string>) {
    if switch.Some? then switch.value.mode == wanted else wanted.None?
  }

  predicate IsReasonToWait(env: Env, locks: Locks, v: View, reason: Reason) {
    var mode := if v.startConfig.Some? then T.ModeOf(env.deployment, v.startConfig.value) else "";
    var ids := if v.startConfig.Some? then env.deployment.eligible(v.startConfig.value, mode) else {};
    match reason
    case Unreadable => v.startConfig.None?
    case LiveNeverRuns => mode == "live"
    case RequestedFor(wanted) => IsAsked(v.startSwitch, wanted) && wanted.Some? && wanted.value != mode
    case NotVerified => mode == "paper" && !v.verified
    case NotBuilt => !v.builds || (mode != "paper" && mode != "shadow") || ids == {}
    case AccountRefused => mode == "paper" && !v.accountOk
    case LockHeldElsewhere => LockName(env) in locks
    case _ => false
  }

  // The status always gives a reason that holds.
  lemma ReasonHolds(env: Env, id: int, s: Supervisor, locks: Locks, v: View)
    requires Consistent(env, id, s, locks)
    ensures var detail := Step(env, id, s, locks, v).supervisor.status.detail;
      && (!v.gate ==> detail == MasterGateOff)
      && (v.gate && !IsWanted(v) ==> detail == OperatorStopped)
      && (IsWanted(v) && s.scheduler.Some? && !GoesOn(env, s, v) ==> IsReasonToStop(env, s, v, detail))
      && (IsWanted(v) && IsTried(s, v) && !Begins(env, s, locks, v) ==> IsReasonToWait(env, locks, v, detail))
      && (IsWanted(v) && Begins(env, s, locks, v) && v.tick.Some? ==>
            detail == RunningIn(T.ModeOf(env.deployment, v.startConfig.value)))
  {
    GoesOnIs(env, s, v);
    assert Begins(env, s, locks, v) <==> MayStart(env, s, locks, v);
    RefusalIs(env, s, locks, v);
    if s.scheduler.Some? {
      MismatchIs(env, id, s, locks, v);
    }
    hide GoesOn, Begins, MayStart, LockName, T.ModeOf, IsReasonToStop, IsReasonToWait, StartRefusal, Mismatch;
  }

  lemma RefusalIs(env: Env, s: Supervisor, locks: Locks, v: View)
    ensures IsTried(s, v) ==> (StartRefusal(env, locks, v).None? <==> Begins(env, s, locks, v))
    ensures StartRefusal(env, locks, v).Some? ==> IsReasonToWait(env, locks, v, StartRefusal(env, locks, v).value)
  {
    hide LockName, T.ModeOf;
  }

  lemma MismatchIs(env: Env, id: int, s: Supervisor, locks: Locks, v: View)
    requires Consistent(env, id, s, locks) && s.scheduler.Some?
    ensures Mismatch(env, s, v).None? <==> GoesOn(env, s, v)
    ensures Mismatch(env, s, v).Some? ==> IsReasonToStop(env, s, v, Mismatch(env, s, v).value)
    ensures forall g, d :: Mismatch(env, s.(status := s.status.(gate := g, desired := d)), v) == Mismatch(env, s, v)
  {
    if v.mismatchConfig.Some? {
      var able := env.deployment.eligible(v.mismatchConfig.value, s.scheduler.value.mode);
      assert s.startedIds - able == {} <==> forall x :: x in s.startedIds ==> x !in s.startedIds - able;
    }
    hide LockName, T.ModeOf;
  }

  // ------------------------------------------------------------ many workers

  lemma NamesDiffer(a: Env, b: Env)
    ensures LockName(a) == LockName(b) <==> a.environment == b.environment
  {
    var prefix := "aq-scheduler-";
    assert LockName(a)[|prefix|..] == a.environment && LockName(b)[|prefix|..] == b.environment;
  }

  // A worker of the environment runs the scheduler.
  ghost predicate IsRunBy(envs: int -> Env, s: Cluster, environment: string, id: int) {
    id in s.workers && s.workers[id].scheduler.Some? && envs(id).environment == environment
  }

  // Over every run the lock of an environment is taken exactly while one of its workers
  // runs the scheduler: others are kept waiting by that alone, and by no other environment.
  lemma LockIsTakenIff(envs: int -> Env, states: seq<Cluster>, events: seq<Event>, n: nat, env: Env)
    requires IsRun(envs, states, events) && n <= |events|
    ensures LockName(env) in states[n].locks <==> exists id :: IsRunBy(envs, states[n], env.environment, id)
  {
    InvariantHolds(envs, states, events, n);
    var s := states[n];
    var name := LockName(env);
    hide LockName, Perform;
    if name in s.locks {
      var id := s.locks[name];
      NamesDiffer(env, envs(id));
      assert IsRunBy(envs, s, env.environment, id);
    }
    forall id | IsRunBy(envs, s, env.environment, id) ensures name in s.locks {
      NamesDiffer(env, envs(id));
    }
  }

  // In a run, a round changes its own worker and the environment's lock only: the worker
  // then runs exactly if that is wanted and it may go on, or may begin and nobody of its
  // environment runs.
  lemma SuperviseRuns(envs: int -> Env, states: seq<Cluster>, events: seq<Event>, n: nat)
    requires IsRun(envs, states, events) && n < |events| && events[n].Supervise?
    requires events[n].id in states[n].workers
    ensures var id, v := events[n].id, events[n].view;
      var was := states[n].workers[id];
      && id in states[n + 1].workers
      && (states[n + 1].workers[id].scheduler.Some? <==>
            IsWanted(v) && (GoesOn(envs(id), was, v) || Begins(envs(id), was, states[n].locks, v)))
      && (forall other :: other in states[n].workers && other != id ==>
            other in states[n + 1].workers && states[n + 1].workers[other] == states[n].workers[other])
  {
    var id := events[n].id;
    InvariantHolds(envs, states, events, n);
    RoundRuns(envs(id), id, states[n].workers[id], states[n].locks, events[n].view);
    hide GoesOn, Begins, Step;
  }

  // A worker that shuts down, or crashes, runs nothing afterwards and holds nothing up.
  lemma ShutdownReleases(envs: int -> Env, states: seq<Cluster>, events: seq<Event>, n: nat)
    requires IsRun(envs, states, events) && n < |events| && events[n].Shutdown?
    ensures events[n].id !in states[n + 1].workers
    ensures forall id :: id in states[n].workers && id != events[n].id ==>
      id in states[n + 1].workers && states[n + 1].workers[id] == states[n].workers[id]
    ensures events[n].id in states[n].workers && states[n].workers[events[n].id].scheduler.Some? ==>
      LockName(envs(events[n].id)) !in states[n + 1].locks
  {
    InvariantHolds(envs, states, events, n);
  }

  // A worker that comes up runs nothing until a round starts it.
  lemma BootIsIdle(envs: int -> Env, states: seq<Cluster>, events: seq<Event>, n: nat)
    requires IsRun(envs, states, events) && n < |events| && events[n].Boot? && events[n].id !in states[n].workers
    ensures events[n].id in states[n + 1].workers
    ensures var idle := states[n + 1].workers[events[n].id];
      idle.scheduler.None? && idle.lock.None? && idle.retryAt.None? && states[n + 1].locks == states[n].locks
  {
  }
}
