// One execution as it unfolds among the other processes' transactions: what each step of
// the worker and of its keep-alive adds to the run, and that it ends as an execution in
// the sense of Workers.Follows (src/adaptive_quant/worker/context.py:45-102).
module Executions {
  import opened Wrappers
  import opened Jobs
  import opened Workers

  // The run so far and the execution under way. `tested` is when the last test of the
  // context's flag was made, `waiting` the keep-alive's heartbeat whose answer its thread
  // has not yet acted on.
  datatype Trace = Trace(tables: seq<Table>, events: seq<Event>, x: Execution, tested: nat, waiting: Option<nat>)

  ghost function After(t: Trace, e: Event): Trace
    requires t.tables != []
  {
    t.(tables := t.tables + [Perform(t.tables[|t.tables| - 1], e).jobs], events := t.events + [e])
  }

  // The next moment a test can be made at.
  function Moment(t: Trace): nat {
    if t.tested < |t.events| then |t.events| else t.tested + 1
  }

  predicate IsBeat(t: Trace, n: nat) {
    t.x.claim < n < |t.events| && t.events[n].Heartbeat? && t.events[n].id == t.x.id && t.events[n].worker == t.x.worker
  }

  ghost predicate HasClaimed(t: Trace) {
    && IsRun(t.tables, t.events) && t.x.claim < |t.events|
    && t.events[t.x.claim].Claim? && t.events[t.x.claim].worker == t.x.worker
    && Perform(t.tables[t.x.claim], t.events[t.x.claim]).outcome == Claimed(Some(t.x.id))
  }

  predicate InOrder(t: Trace) {
    && t.tested <= |t.events|
    && (forall k :: 0 <= k < |t.x.checkpoints| ==>
          IsBeat(t, t.x.checkpoints[k].beat) && t.x.checkpoints[k].beat < t.x.checkpoints[k].test <= |t.events|)
    && (forall k :: 0 <= k < |t.x.keepalives| ==>
          IsBeat(t, t.x.keepalives[k].beat) && t.x.keepalives[k].beat < t.x.keepalives[k].setBy <= Moment(t))
    && (forall j, k :: 0 <= j < k < |t.x.checkpoints| ==> t.x.checkpoints[j].test <= t.x.checkpoints[k].beat)
  }

  ghost predicate Flagged(t: Trace, n: nat) {
    FlagSet(t.tables, t.events, t.x, n)
  }

  ghost predicate Waits(t: Trace, told: Option<bool>) {
    && told.Some? == t.waiting.Some?
    && (told.Some? ==> IsBeat(t, t.waiting.value) && told.value == Answered(t.tables, t.events, t.waiting.value))
  }

  // The execution is under way, with this flag in its context.
  ghost predicate Ongoing(t: Trace, cancelled: bool, told: Option<bool>) {
    HasClaimed(t) && InOrder(t) && Waits(t, told) && (cancelled <==> Flagged(t, Moment(t)))
  }

  // The tests of the first `n` checkpoints were made and found the flag clear.
  ghost predicate Passed(t: Trace, n: nat) {
    n <= |t.x.checkpoints|
    && forall k :: 0 <= k < n ==> t.x.checkpoints[k].test <= t.tested && !Flagged(t, t.x.checkpoints[k].test)
  }

  // ------------------------------------------------------------ the flag

  lemma AnsweredStays(t: Trace, e: Event, n: nat)
    requires |t.tables| == |t.events| + 1 && n < |t.events|
    ensures Answered(After(t, e).tables, After(t, e).events, n) <==> Answered(t.tables, t.events, n)
  {
    hide Perform;
  }

  lemma FlagStays(t: Trace, e: Event, n: nat)
    requires |t.tables| == |t.events| + 1 && InOrder(t)
    ensures Flagged(After(t, e), n) <==> Flagged(t, n)
  {
    var next := After(t, e);
    forall k | 0 <= k < |t.x.checkpoints|
      ensures Answered(next.tables, next.events, t.x.checkpoints[k].beat)
         <==> Answered(t.tables, t.events, t.x.checkpoints[k].beat)
    {
      AnsweredStays(t, e, t.x.checkpoints[k].beat);
    }
    forall k | 0 <= k < |t.x.keepalives|
      ensures Answered(next.tables, next.events, t.x.keepalives[k].beat)
         <==> Answered(t.tables, t.events, t.x.keepalives[k].beat)
    {
      AnsweredStays(t, e, t.x.keepalives[k].beat);
    }
    hide Answered, Perform, IsBeat;
  }

  // Past the present moment nothing more counts.
  lemma FlagIsSettled(t: Trace, n: nat)
    requires InOrder(t) && Moment(t) <= n
    ensures Flagged(t, n) <==> Flagged(t, Moment(t))
  {
    hide Answered;
    assert forall k :: 0 <= k < |t.x.checkpoints| ==> t.x.checkpoints[k].beat < Moment(t);
  }

  function WithKeepalive(t: Trace, k: Keepalive): Trace {
    t.(x := t.x.(keepalives := t.x.keepalives + [k]))
  }

  function WithCheckpoint(t: Trace, p: Progress): Trace {
    t.(x := t.x.(checkpoints := t.x.checkpoints + [p]))
  }

  lemma FlagWithKeepalive(t: Trace, k: Keepalive, n: nat)
    ensures Flagged(WithKeepalive(t, k), n)
       <==> Flagged(t, n) || (k.setBy <= n && Answered(t.tables, t.events, k.beat))
  {
    hide Answered;
    var y := WithKeepalive(t, k).x;
    assert y.keepalives[|t.x.keepalives|] == k;
    assert forall i :: 0 <= i < |t.x.keepalives| ==> y.keepalives[i] == t.x.keepalives[i];
  }

  lemma FlagWithCheckpoint(t: Trace, p: Progress, n: nat)
    ensures Flagged(WithCheckpoint(t, p), n)
       <==> Flagged(t, n) || (p.beat < n && Answered(t.tables, t.events, p.beat))
  {
    hide Answered;
    var y := WithCheckpoint(t, p).x;
    assert y.checkpoints[|t.x.checkpoints|] == p;
    assert forall i :: 0 <= i < |t.x.checkpoints| ==> y.checkpoints[i] == t.x.checkpoints[i];
  }

  // ------------------------------------------------------------ steps

  // The tests made so far found what they found.
  ghost predicate SameTests(t: Trace, next: Trace) {
    t.tested == next.tested && forall n :: 0 <= n <= t.tested ==> (Flagged(next, n) <==> Flagged(t, n))
  }

  lemma PassedStays(t: Trace, next: Trace, n: nat)
    requires SameTests(t, next) && t.x.checkpoints <= next.x.checkpoints && Passed(t, n)
    ensures Passed(next, n)
  {
    hide Flagged;
  }

  // The run goes on with steps of this execution and of others'.
  ghost predicate Grown(t: Trace, next: Trace, others: iset<Event>) {
    && next.x.id == t.x.id && next.x.worker == t.x.worker && next.x.claim == t.x.claim
    && t.tables <= next.tables && t.events <= next.events
    && forall i :: |t.events| <= i < |next.events| ==> IsOwn(t.x, next.events[i]) || next.events[i] in others
  }

  predicate IsOwn(x: Execution, e: Event) {
    (e.Heartbeat? && e.id == x.id && e.worker == x.worker) || (e.Finish? && e.id == x.id && e.worker == x.worker)
  }

  lemma GrowsOn(t: Trace, next: Trace, last: Trace, others: iset<Event>)
    requires Grown(t, next, others) && Grown(next, last, others)
    ensures Grown(t, last, others)
  {
    hide IsOwn;
    forall i | |t.events| <= i < |last.events| ensures IsOwn(t.x, last.events[i]) || last.events[i] in others {
      if i < |next.events| {
        assert last.events[i] == next.events[i];
      } else {
        OwnIsOwn(t.x, next.x, last.events[i]);
      }
    }
  }

  lemma SameOn(t: Trace, next: Trace, last: Trace)
    requires SameTests(t, next) && SameTests(next, last)
    ensures SameTests(t, last)
  {
    hide Flagged;
  }

  lemma OwnIsOwn(x: Execution, y: Execution, e: Event)
    requires x.id == y.id && x.worker == y.worker
    ensures IsOwn(x, e) <==> IsOwn(y, e)
  {
  }

  lemma AfterKeeps(t: Trace, e: Event)
    requires HasClaimed(t) && InOrder(t) && FreshIds(t.tables[|t.events|], e)
    ensures HasClaimed(After(t, e)) && InOrder(After(t, e)) && Moment(After(t, e)) == |t.events| + 1
  {
    hide Perform, FreshIds;
  }

  lemma TraceShape(t: Trace, cancelled: bool, told: Option<bool>)
    requires Ongoing(t, cancelled, told)
    ensures |t.tables| == |t.events| + 1 && IsRun(t.tables, t.events) && t.waiting.Some? == told.Some?
    ensures t.tested <= |t.events| && t.x.claim < |t.events|
  {
  }

  lemma AfterGrows(t: Trace, e: Event, others: iset<Event>)
    requires t.tables != [] && (IsOwn(t.x, e) || e in others)
    ensures Grown(t, After(t, e), others) && Grown(t, Awaiting(t, e), others) && Grown(t, Recorded(t, e), others)
    ensures Grown(t, Ended(t, e), others)
  {
    hide Perform, IsOwn;
  }

  lemma NothingYet(t: Trace, others: iset<Event>)
    ensures Grown(t, t, others) && Passed(t, 0)
  {
  }

  lemma SameGrows(t: Trace, others: iset<Event>)
    ensures t.waiting.Some? ==> Grown(t, Told(t), others)
    ensures t.x.checkpoints != [] ==> Grown(t, Tested(t), others)
  {
  }

  lemma StepGrows(first: Trace, t: Trace, next: Trace, others: iset<Event>)
    requires Grown(first, t, others) && SameTests(first, t) && Grown(t, next, others) && SameTests(t, next)
    ensures Grown(first, next, others) && SameTests(first, next)
  {
    hide Grown, SameTests;
    GrowsOn(first, t, next, others);
    SameOn(first, t, next);
  }

  // Any other process's step.
  lemma OtherStep(t: Trace, e: Event, cancelled: bool, told: Option<bool>)
    requires Ongoing(t, cancelled, told) && FreshIds(t.tables[|t.events|], e)
    ensures Ongoing(After(t, e), cancelled, told) && SameTests(t, After(t, e))
  {
    AfterKeeps(t, e);
    FlagIsSettled(t, |t.events| + 1);
    forall n: nat ensures Flagged(After(t, e), n) <==> Flagged(t, n) {
      FlagStays(t, e, n);
    }
    if told.Some? {
      AnsweredStays(t, e, t.waiting.value);
    }
    hide Answered, FlagSet, HasClaimed, InOrder, Perform, FreshIds;
  }

  predicate IsOwnBeat(t: Trace, e: Event) {
    e.Heartbeat? && e.id == t.x.id && e.worker == t.x.worker
  }

  ghost predicate IsAnswer(t: Trace, e: Event, cancel: bool)
    requires t.tables != []
  {
    Perform(t.tables[|t.tables| - 1], e).outcome == CancelFlag(cancel)
  }

  lemma AnsweredNow(t: Trace, e: Event, cancel: bool)
    requires |t.tables| == |t.events| + 1 && IsAnswer(t, e, cancel)
    ensures Answered(After(t, e).tables, After(t, e).events, |t.events|) <==> cancel
  {
    hide Perform;
  }

  // The keep-alive's heartbeat is answered; its thread has yet to act on it.
  ghost function Awaiting(t: Trace, e: Event): Trace
    requires t.tables != []
  {
    After(t, e).(waiting := Some(|t.events|))
  }

  lemma KeepaliveStep(t: Trace, e: Event, cancelled: bool, cancel: bool)
    requires Ongoing(t, cancelled, None) && IsOwnBeat(t, e) && IsAnswer(t, e, cancel)
    ensures Ongoing(Awaiting(t, e), cancelled, Some(cancel)) && SameTests(t, Awaiting(t, e))
  {
    hide Answered, FlagSet, Perform;
    assert FreshIds(t.tables[|t.events|], e);
    OtherStep(t, e, cancelled, None);
    AnsweredNow(t, e, cancel);
  }

  // The thread acts: before any later test, and after every earlier one.
  function Told(t: Trace): Trace
    requires t.waiting.Some?
  {
    WithKeepalive(t, Keepalive(t.waiting.value, Moment(t))).(waiting := None)
  }

  lemma TellStep(t: Trace, cancelled: bool, told: bool)
    requires Ongoing(t, cancelled, Some(told))
    ensures Ongoing(Told(t), cancelled || told, None) && SameTests(t, Told(t))
  {
    hide Answered, FlagSet, Perform;
    var k := Keepalive(t.waiting.value, Moment(t));
    forall n: nat ensures Flagged(Told(t), n) <==> Flagged(t, n) || (Moment(t) <= n && told) {
      FlagWithKeepalive(t, k, n);
    }
  }

  // A checkpoint's heartbeat; its test is still to come.
  ghost function Recorded(t: Trace, e: Event): Trace
    requires t.tables != []
  {
    WithCheckpoint(After(t, e), Progress(|t.events|, |t.events| + 1))
  }

  lemma RecordStep(t: Trace, e: Event, cancelled: bool, told: Option<bool>, cancel: bool)
    requires Ongoing(t, cancelled, told) && IsOwnBeat(t, e) && IsAnswer(t, e, cancel)
    ensures Ongoing(Recorded(t, e), cancelled || cancel, told) && SameTests(t, Recorded(t, e))
  {
    var p := Progress(|t.events|, |t.events| + 1);
    BeatIsRecorded(t, e, cancelled, told, cancel);
    hide *;
    RecordedIs(t, e);
    CheckpointJoins(After(t, e), p, cancelled, told, cancel);
    RecordedKeepsTests(t, e, p);
  }

  lemma RecordedIs(t: Trace, e: Event)
    requires t.tables != []
    ensures Recorded(t, e) == WithCheckpoint(After(t, e), Progress(|t.events|, |t.events| + 1))
  {
  }

  lemma BeatIsRecorded(t: Trace, e: Event, cancelled: bool, told: Option<bool>, cancel: bool)
    requires Ongoing(t, cancelled, told) && IsOwnBeat(t, e) && IsAnswer(t, e, cancel)
    ensures var next := After(t, e);
      && Ongoing(next, cancelled, told) && SameTests(t, next)
      && next.tested <= |t.events| && |next.events| == |t.events| + 1 && IsBeat(next, |t.events|)
      && (forall k :: 0 <= k < |t.x.checkpoints| ==> t.x.checkpoints[k].test <= |t.events|)
      && (Answered(next.tables, next.events, |t.events|) <==> cancel)
  {
    hide Answered, Flagged, Perform, SameTests;
    assert FreshIds(t.tables[|t.events|], e);
    OtherStep(t, e, cancelled, told);
    AnsweredNow(t, e, cancel);
  }

  lemma CheckpointJoins(t: Trace, p: Progress, cancelled: bool, told: Option<bool>, cancel: bool)
    requires Ongoing(t, cancelled, told) && t.tested < |t.events|
    requires IsBeat(t, p.beat) && p.beat < p.test <= |t.events|
    requires forall k :: 0 <= k < |t.x.checkpoints| ==> t.x.checkpoints[k].test <= p.beat
    requires Answered(t.tables, t.events, p.beat) <==> cancel
    ensures Ongoing(WithCheckpoint(t, p), cancelled || cancel, told)
  {
    hide Answered, Flagged, Perform;
    FlagWithCheckpoint(t, p, Moment(t));
  }

  // It counts for later tests only.
  lemma RecordedKeepsTests(t: Trace, e: Event, p: Progress)
    requires t.tables != [] && SameTests(t, After(t, e)) && t.tested <= p.beat
    ensures SameTests(t, WithCheckpoint(After(t, e), p))
  {
    hide Answered, Flagged, Perform;
    forall n: nat | n <= t.tested ensures Flagged(WithCheckpoint(After(t, e), p), n) <==> Flagged(After(t, e), n) {
      FlagWithCheckpoint(After(t, e), p, n);
    }
  }

  // The test of the last checkpoint, now.
  function Tested(t: Trace): Trace
    requires t.x.checkpoints != []
  {
    var last := |t.x.checkpoints| - 1;
    t.(tested := |t.events|,
       x := t.x.(checkpoints := t.x.checkpoints[last := t.x.checkpoints[last].(test := |t.events|)]))
  }

  lemma FlagWithTest(t: Trace, n: nat)
    requires t.x.checkpoints != []
    ensures Flagged(Tested(t), n) <==> Flagged(t, n)
  {
    hide Answered;
    var a, b := t.x.checkpoints, Tested(t).x.checkpoints;
    assert forall k :: 0 <= k < |a| ==> a[k].beat == b[k].beat;
  }

  // All tests but the last found the flag clear.
  ghost predicate PassedButLast(t: Trace) {
    t.x.checkpoints != [] ==> Passed(t, |t.x.checkpoints| - 1) && t.x.Last().test <= t.tested
  }

  lemma TestStep(t: Trace, cancelled: bool, told: Option<bool>)
    requires Ongoing(t, cancelled, told) && t.x.checkpoints != [] && Passed(t, |t.x.checkpoints| - 1)
    requires t.tested < |t.events|
    ensures Ongoing(Tested(t), cancelled, told) && PassedButLast(Tested(t))
    ensures !cancelled ==> Passed(Tested(t), |t.x.checkpoints|)
    ensures Flagged(Tested(t), Tested(t).x.Last().test) <==> cancelled
  {
    hide Answered, FlagSet, Perform;
    FlagWithTest(t, |t.events|);
    FlagWithTest(t, |t.events| + 1);
    FlagIsSettled(t, |t.events| + 1);
    forall i | 0 <= i < |t.x.checkpoints| - 1 ensures !Flagged(Tested(t), t.x.checkpoints[i].test) {
      FlagWithTest(t, t.x.checkpoints[i].test);
    }
  }

  // One checkpoint: from `t` to `a`, its heartbeat, on to `b`, and its test.
  lemma CheckpointStep(t: Trace, a: Trace, e: Event, b: Trace, others: iset<Event>)
    requires a.tables != [] && IsOwnBeat(a, e)
    requires Passed(t, |t.x.checkpoints|) && a.tested <= |a.events|
    requires Grown(t, a, others) && SameTests(t, a) && a.x.checkpoints == t.x.checkpoints
    requires SameTests(a, Recorded(a, e))
    requires Grown(Recorded(a, e), b, others) && SameTests(Recorded(a, e), b)
    requires b.x.checkpoints == Recorded(a, e).x.checkpoints
    ensures Grown(t, Tested(b), others)
    ensures |b.x.checkpoints| == |t.x.checkpoints| + 1 && Passed(b, |t.x.checkpoints|) && b.tested < |b.events|
  {
    var r := Recorded(a, e);
    AfterGrows(a, e, others);
    GrowsOn(t, a, r, others);
    GrowsOn(t, r, b, others);
    SameGrows(b, others);
    GrowsOn(t, b, Tested(b), others);
    SameOn(t, a, r);
    SameOn(t, r, b);
    PassedStays(t, b, |t.x.checkpoints|);
    hide IsOwn, Perform, Flagged;
  }

  // The finish completes an execution.
  ghost function Ended(t: Trace, e: Event): Trace
    requires t.tables != []
  {
    After(t, e).(x := t.x.(finish := |t.events|))
  }

  lemma FlagWithFinish(t: Trace, e: Event, n: nat)
    requires |t.tables| == |t.events| + 1 && InOrder(t)
    ensures Flagged(Ended(t, e), n) <==> Flagged(t, n)
  {
    FlagStays(t, e, n);
    hide Answered, Perform, InOrder;
    assert Ended(t, e).x.checkpoints == t.x.checkpoints && Ended(t, e).x.keepalives == t.x.keepalives;
  }

  // The last test found the flag set exactly if the job is to stop.
  ghost predicate Concludes(t: Trace, stop: bool) {
    PassedButLast(t) && (stop <==> t.x.checkpoints != [] && Flagged(t, t.x.Last().test))
  }

  lemma PassedConcludes(t: Trace)
    requires Passed(t, |t.x.checkpoints|)
    ensures Concludes(t, false)
  {
    hide Flagged;
  }

  lemma ConcludesStays(t: Trace, next: Trace, stop: bool)
    requires Concludes(t, stop) && SameTests(t, next) && next.x.checkpoints == t.x.checkpoints
    ensures Concludes(next, stop)
  {
    hide Flagged;
  }

  // The trace of a whole execution that began as `t`.
  ghost predicate IsExecution(t: Trace, next: Trace, others: iset<Event>) {
    && Grown(t, next, others)
    && IsRun(next.tables, next.events) && Follows(next.tables, next.events, next.x)
    && next.x.finish == |next.events| - 1
  }

  // It was cancelled, or passed that many checkpoints and ended as its handler did.
  predicate EndsAs(t: Trace, checkpoints: nat, end: Status) {
    && t.x.finish < |t.events| && t.events[t.x.finish].Finish?
    && var status := t.events[t.x.finish].status;
      status == Cancelled || (status == end && |t.x.checkpoints| == checkpoints)
  }

  // It leaves the job ended, and nobody else's.
  lemma ExecutionIsWhole(t: Trace, next: Trace, others: iset<Event>)
    requires IsExecution(t, next, others)
    ensures |next.tables| == |next.events| + 1 && TerminalIn(next.tables[|next.events|], t.x.id)
    ensures next.tables[|next.events|][t.x.id].workerId == Some(t.x.worker)
  {
    hide Perform, Grown;
    GrownIsSame(t, next, others);
    ExecutionEndsTheJob(next.tables, next.events, next.x);
    ClaimNamesTheWorker(next.tables, next.events, next.x.claim, next.x.id);
    WorkerNeverChanges(next.tables, next.events, next.x.id, next.x.claim + 1, |next.events|);
  }

  lemma ClaimNamesTheWorker(tables: seq<Table>, events: seq<Event>, n: nat, id: int)
    requires IsRun(tables, events) && n < |events| && events[n].Claim?
    requires Perform(tables[n], events[n]).outcome == Claimed(Some(id))
    ensures id in tables[n + 1] && tables[n + 1][id].workerId == Some(events[n].worker)
  {
    OldestIsClaimable(tables[n], events[n].types, events[n].locked);
    hide Oldest;
  }

  lemma GrownIsSame(t: Trace, next: Trace, others: iset<Event>)
    requires Grown(t, next, others)
    ensures next.x.id == t.x.id && next.x.worker == t.x.worker
  {
  }

  lemma FinishStep(t: Trace, e: Event, cancelled: bool, told: Option<bool>)
    requires Ongoing(t, cancelled, told) && Concludes(t, e.Finish? && e.status == Cancelled)
    requires e.Finish? && e.id == t.x.id && e.worker == t.x.worker && e.status.Terminal()
    ensures var next := Ended(t, e);
      IsRun(next.tables, next.events) && Follows(next.tables, next.events, next.x)
  {
    hide Answered, FlagSet, Perform, IsBeat, Beats;
    assert FreshIds(t.tables[|t.events|], e);
    AfterKeeps(t, e);
    EndedIsClaimed(t, e);
    EndedHasBeats(t, e);
    var next := Ended(t, e);
    forall k | 0 <= k < |t.x.checkpoints|
      ensures Flagged(next, t.x.checkpoints[k].test) <==> Flagged(t, t.x.checkpoints[k].test)
    {
      FlagWithFinish(t, e, t.x.checkpoints[k].test);
    }
  }

  lemma EndedHasBeats(t: Trace, e: Event)
    requires t.tables != []
    ensures forall n: nat :: IsBeat(t, n) ==> Beats(Ended(t, e).events, Ended(t, e).x, n)
  {
    hide Perform;
  }

  lemma EndedIsClaimed(t: Trace, e: Event)
    requires HasClaimed(t)
    ensures var next := Ended(t, e);
      && next.x.claim < |t.events| && next.events[next.x.claim] == t.events[t.x.claim]
      && Perform(next.tables[next.x.claim], next.events[next.x.claim]).outcome == Claimed(Some(t.x.id))
  {
    hide Perform;
  }

  // The claim begins one.
  ghost function Begun(tables: seq<Table>, events: seq<Event>, e: Event, job: int, worker: string): Trace
    requires tables != []
  {
    Trace(tables + [Perform(tables[|tables| - 1], e).jobs], events + [e],
          Execution(job, worker, |events|, [], [], 0), 0, None)
  }

  lemma ClaimStep(tables: seq<Table>, events: seq<Event>, e: Event, job: int, worker: string)
    requires IsRun(tables, events) && e.Claim? && e.worker == worker
    requires Perform(tables[|events|], e).outcome == Claimed(Some(job))
    ensures Ongoing(Begun(tables, events, e, job, worker), false, None)
    ensures Passed(Begun(tables, events, e, job, worker), 0)
  {
    hide Perform;
  }
}
