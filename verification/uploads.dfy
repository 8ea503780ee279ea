// The upload protocol: import and discard requests from any number of API clients and
// any number of workers racing over the same rows (src/adaptive_quant/api/control.py:574-606,
// src/adaptive_quant/persistence/control.py:330-364, src/adaptive_quant/worker/handlers.py:105-130).
module Uploads {
  import opened Wrappers
  import J = Jobs

  datatype UploadStatus = Validated | Invalid | Waiting | Imported | ImportFailed | Discarded {
    // An accepted import has left the states a discard or another import starts from.
    predicate Begun() {
      this == Waiting || this == Imported || this == ImportFailed
    }
  }

  // `content` is the stored file; discarding empties it.
  datatype Upload = Upload(status: UploadStatus, content: seq<int>, jobId: Option<int>)

  // An import request between its transactions.
  datatype Handler = Accepted(upload: int) | JobQueued(upload: int, job: int) | Done

  // An import job between its reads and its write.
  datatype Importer = Started(upload: int) | Checked(upload: int) | Read(upload: int, content: seq<int>) | Left

  // A claimed job runs once, so importers are keyed by their job. `original` remembers
  // what was uploaded; the database does not.
  datatype System = System(
    uploads: map<int, Upload>,
    original: map<int, seq<int>>,
    jobs: J.Table,
    handlers: map<int, Handler>,
    importers: map<int, Importer>)

  const INITIAL := System(map[], map[], map[], map[], map[])

  // set_upload_status: `allowed` guards the row when given; discarding drops the content.
  function SetStatus(s: System, u: int, status: UploadStatus, jobId: Option<int>,
    allowed: Option<set<UploadStatus>>): Option<System> {
    if u !in s.uploads then None
    else if allowed.Some? && s.uploads[u].status !in allowed.value then None
    else
      var row := s.uploads[u];
      Some(s.(uploads := s.uploads[u := Upload(
        status,
        if status == Discarded then [] else row.content,
        if jobId.Some? then jobId else row.jobId)]))
  }

  // How the import ended: rows accepted, rows rejected, or an exception.
  datatype Verdict = RowsAccepted | RowsRejected | Raised

  datatype Event =
    | CreateUpload(newId: int, content: seq<int>, valid: bool)
    | RequestImport(handler: int, upload: int)
    | QueueImportJob(handler: int, newJob: int, actor: string, now: int)
    | LinkImportJob(handler: int)
    | RequestDiscard(upload: int)
    | JobStep(event: J.Event)
    | BeginImport(job: int)
    | CheckUpload(job: int)
    | ReadContent(job: int)
    | WriteOutcome(job: int, verdict: Verdict)

  // The upload a job imports.
  function ImportOf(jobs: J.Table, j: int): Option<int> {
    if j in jobs && jobs[j].jobType == J.IMPORT_UPLOAD && jobs[j].params.ForUpload?
    then Some(jobs[j].params.upload) else None
  }

  // What the ids the environment draws, and the jobs others queue, must respect: random
  // ids are fresh, no other route queues import jobs (imports are not retried), and a
  // worker executes the job it claimed once.
  ghost predicate Allowed(s: System, e: Event) {
    match e
    case CreateUpload(id, _, _) => id !in s.uploads
    case RequestImport(h, _) => h !in s.handlers
    case QueueImportJob(_, j, _, _) => j !in s.jobs
    case JobStep(je) => J.FreshIds(s.jobs, je) && (je.Create? ==> je.jobType != J.IMPORT_UPLOAD)
    case BeginImport(j) => ImportOf(s.jobs, j).Some? && s.jobs[j].status == J.Running && j !in s.importers
    case _ => true
  }

  // The job create_job returns: the identical active one, or the new one.
  ghost function ActiveOrNew(jobs: J.Table, u: int, newJob: int): int {
    if J.HasIdentical(jobs, J.IMPORT_UPLOAD, J.ForUpload(u))
    then
      var k :| k in jobs && J.Identical(jobs[k], J.IMPORT_UPLOAD, J.ForUpload(u));
      k
    else newJob
  }

  ghost function Perform(s: System, e: Event): System {
    match e
    case CreateUpload(id, content, valid) =>
      s.(uploads := s.uploads[id := Upload(if valid then Validated else Invalid, content, None)],
         original := s.original[id := content])
    case RequestImport(h, u) =>
      var next := SetStatus(s, u, Waiting, None, Some({Validated}));
      if next.None? then s else next.value.(handlers := s.handlers[h := Accepted(u)])
    case QueueImportJob(h, j, actor, now) =>
      if !(h in s.handlers && s.handlers[h].Accepted?) then s
      else
        var u := s.handlers[h].upload;
        s.(jobs := J.Perform(s.jobs, J.Create(j, J.IMPORT_UPLOAD, J.ForUpload(u), actor, now, None, true)).jobs,
           handlers := s.handlers[h := JobQueued(u, ActiveOrNew(s.jobs, u, j))])
    case LinkImportJob(h) =>
      if !(h in s.handlers && s.handlers[h].JobQueued?) then s
      else
        var next := SetStatus(s, s.handlers[h].upload, Waiting, Some(s.handlers[h].job), None);
        if next.None? then s else next.value.(handlers := s.handlers[h := Done])
    case RequestDiscard(u) =>
      var next := SetStatus(s, u, Discarded, None, Some({Validated, Invalid}));
      if next.None? then s else next.value
    case JobStep(je) => s.(jobs := J.Perform(s.jobs, je).jobs)
    case BeginImport(j) =>
      var u := ImportOf(s.jobs, j);
      if u.None? then s else s.(importers := s.importers[j := Started(u.value)])
    case CheckUpload(j) =>
      if !(j in s.importers && s.importers[j].Started?) then s
      else
        var u := s.importers[j].upload;
        var passes := u in s.uploads && s.uploads[u].status == Waiting;
        s.(importers := s.importers[j := if passes then Checked(u) else Left])
    case ReadContent(j) =>
      if !(j in s.importers && s.importers[j].Checked?) then s
      else
        var u := s.importers[j].upload;
        s.(importers := s.importers[j := if u in s.uploads then Read(u, s.uploads[u].content) else Left])
    case WriteOutcome(j, verdict) =>
      if !(j in s.importers && s.importers[j].Read?) then s
      else
        var next := SetStatus(s, s.importers[j].upload, if verdict == RowsAccepted then Imported else ImportFailed,
                              if verdict == Raised then None else Some(j), None);
        if next.None? then s else next.value.(importers := s.importers[j := Left])
  }

  // ------------------------------------------------------------ the invariant

  ghost predicate IsBegun(s: System, u: int) {
    u in s.uploads && s.uploads[u].status.Begun()
  }

  // Content is what was uploaded until it is discarded.
  ghost predicate Contents(s: System) {
    && s.original.Keys == s.uploads.Keys
    && forall u :: u in s.uploads ==>
         s.uploads[u].content == if s.uploads[u].status == Discarded then [] else s.original[u]
  }

  // Only accepted imports have requests; one that has no job yet is alone and waiting.
  ghost predicate Requests(s: System) {
    && (forall h :: h in s.handlers && !s.handlers[h].Done? ==> IsBegun(s, s.handlers[h].upload))
    && (forall h :: h in s.handlers && s.handlers[h].Accepted? ==> s.uploads[s.handlers[h].upload].status == Waiting)
    && (forall h, k ::
          h in s.handlers && k in s.handlers && s.handlers[h].Accepted? && s.handlers[k] == s.handlers[h] ==> h == k)
    && (forall h, j :: h in s.handlers && s.handlers[h].Accepted? ==> ImportOf(s.jobs, j) != Some(s.handlers[h].upload))
  }

  // Only accepted imports have a job, and only one.
  ghost predicate ImportJobs(s: System) {
    && (forall j :: ImportOf(s.jobs, j).Some? ==> IsBegun(s, ImportOf(s.jobs, j).value))
    && (forall i, j :: ImportOf(s.jobs, i).Some? && ImportOf(s.jobs, j) == ImportOf(s.jobs, i) ==> i == j)
  }

  // Importers run their own job on what was uploaded, and an imported upload's is over.
  ghost predicate Importers(s: System) {
    && (forall j :: j in s.importers && !s.importers[j].Left? ==> ImportOf(s.jobs, j) == Some(s.importers[j].upload))
    && (forall j :: j in s.importers && s.importers[j].Read? ==>
          s.importers[j].upload in s.original && s.importers[j].content == s.original[s.importers[j].upload])
    && (forall j, u :: ImportOf(s.jobs, j) == Some(u) && u in s.uploads && s.uploads[u].status == Imported ==>
          j in s.importers && s.importers[j].Left?)
  }

  ghost predicate Invariant(s: System) {
    Contents(s) && Requests(s) && ImportJobs(s) && Importers(s)
  }

  // ------------------------------------------------------------ one step

  // A step on the job table creates no import job and changes no job's purpose.
  lemma JobStepKeepsImports(jobs: J.Table, e: J.Event)
    requires J.FreshIds(jobs, e) && (e.Create? ==> e.jobType != J.IMPORT_UPLOAD)
    ensures forall j :: ImportOf(J.Perform(jobs, e).jobs, j) == ImportOf(jobs, j)
  {
    hide J.Oldest, J.HasIdentical;
  }

  // Creating the import job of an upload that has none adds just that.
  lemma CreatedImport(jobs: J.Table, u: int, j: int, actor: string, now: int)
    requires j !in jobs && (forall i :: ImportOf(jobs, i) != Some(u))
    ensures ActiveOrNew(jobs, u, j) == j
    ensures var next := J.Perform(jobs, J.Create(j, J.IMPORT_UPLOAD, J.ForUpload(u), actor, now, None, true)).jobs;
      forall i :: ImportOf(next, i) == if i == j then Some(u) else ImportOf(jobs, i)
  {
    forall k | k in jobs ensures !J.Identical(jobs[k], J.IMPORT_UPLOAD, J.ForUpload(u)) {
      assert ImportOf(jobs, k) != Some(u);
    }
  }

  function ImportAfter(s: System, e: Event, j: int): Option<int> {
    if e.QueueImportJob? && e.handler in s.handlers && s.handlers[e.handler].Accepted? && j == e.newJob
    then Some(s.handlers[e.handler].upload) else ImportOf(s.jobs, j)
  }

  // What a step does to the jobs' purposes: only queueing an import adds one.
  lemma ImportsAfter(s: System, e: Event)
    requires Requests(s) && Allowed(s, e)
    ensures forall j :: ImportOf(Perform(s, e).jobs, j) == ImportAfter(s, e, j)
    ensures e.QueueImportJob? ==> ImportOf(s.jobs, e.newJob).None?
  {
    match e
    case QueueImportJob(h, j, actor, now) =>
      if h in s.handlers && s.handlers[h].Accepted? {
        CreatedImport(s.jobs, s.handlers[h].upload, j, actor, now);
      }
    case JobStep(je) =>
      JobStepKeepsImports(s.jobs, je);
      hide J.Perform, J.FreshIds, ImportOf;
    case _ =>
      hide ImportOf;
  }

  lemma ContentsKept(s: System, e: Event)
    requires Invariant(s) && Allowed(s, e)
    ensures Contents(Perform(s, e))
  {
    hide J.Perform, ImportOf, ActiveOrNew;
  }

  // No step returns an accepted upload to the states it started from.
  lemma BegunKept(s: System, e: Event)
    requires Allowed(s, e)
    ensures forall u :: IsBegun(s, u) ==> IsBegun(Perform(s, e), u)
  {
    hide J.Perform, ImportOf, ActiveOrNew;
  }

  lemma RequestsKept(s: System, e: Event)
    requires Invariant(s) && Allowed(s, e)
    ensures Requests(Perform(s, e))
  {
    BegunKept(s, e);
    if e.QueueImportJob? || e.JobStep? {
      ImportsAfter(s, e);
      RequestsKeptByJobs(s, e);
    } else {
      hide J.Perform, J.FreshIds, ImportOf, ActiveOrNew, Contents;
    }
  }

  lemma RequestsKeptByJobs(s: System, e: Event)
    requires Invariant(s) && Allowed(s, e) && (e.QueueImportJob? || e.JobStep?)
    requires forall j :: ImportOf(Perform(s, e).jobs, j) == ImportAfter(s, e, j)
    ensures Requests(Perform(s, e))
  {
    hide J.Perform, J.FreshIds, ImportOf, ActiveOrNew, Contents, Importers, ImportJobs;
  }

  lemma ImportJobsKept(s: System, e: Event)
    requires Invariant(s) && Allowed(s, e)
    ensures ImportJobs(Perform(s, e))
  {
    ImportsAfter(s, e);
    BegunKept(s, e);
    hide J.Perform, ImportOf, ActiveOrNew, Contents, Importers;
    if e.QueueImportJob? {
    } else {
      hide Requests, IsBegun, Perform;
    }
  }

  lemma ImportersKept(s: System, e: Event)
    requires Invariant(s) && Allowed(s, e)
    ensures Importers(Perform(s, e))
  {
    if e.QueueImportJob? || e.JobStep? {
      ImportsAfter(s, e);
      ImportersKeptByJobs(s, e);
    } else if e.CreateUpload? || e.RequestImport? || e.LinkImportJob? || e.RequestDiscard? {
      hide J.Perform, J.FreshIds, ImportOf, ActiveOrNew;
    } else {
      ImportersKeptByImporters(s, e);
    }
  }

  lemma ImportersKeptByJobs(s: System, e: Event)
    requires Invariant(s) && Allowed(s, e) && (e.QueueImportJob? || e.JobStep?)
    requires forall j :: ImportOf(Perform(s, e).jobs, j) == ImportAfter(s, e, j)
    requires e.QueueImportJob? ==> ImportOf(s.jobs, e.newJob).None?
    ensures Importers(Perform(s, e))
  {
    hide J.Perform, J.FreshIds, ImportOf, ActiveOrNew, Contents, ImportJobs;
  }

  lemma ImportersKeptByImporters(s: System, e: Event)
    requires Invariant(s) && Allowed(s, e) && (e.BeginImport? || e.CheckUpload? || e.ReadContent? || e.WriteOutcome?)
    ensures Importers(Perform(s, e))
  {
    hide J.Perform, J.FreshIds, ImportOf, ActiveOrNew, Requests;
  }

  // Every step of every client and worker keeps the invariant.
  lemma StepKeeps(s: System, e: Event)
    requires Invariant(s) && Allowed(s, e)
    ensures Invariant(Perform(s, e))
  {
    ContentsKept(s, e);
    RequestsKept(s, e);
    ImportJobsKept(s, e);
    ImportersKept(s, e);
    hide Perform, Contents, Requests, ImportJobs, Importers, Allowed;
  }

  // ------------------------------------------------------------ whole runs

  ghost predicate IsRun(states: seq<System>, events: seq<Event>) {
    && |states| == |events| + 1
    && states[0] == INITIAL
    && (forall i :: 0 <= i < |events| ==>
      Allowed(states[i], events[i]) && states[i + 1] == Perform(states[i], events[i]))
  }

  lemma {:induction false} InvariantHolds(states: seq<System>, events: seq<Event>, n: nat)
    requires IsRun(states, events) && n <= |events|
    ensures Invariant(states[n])
  {
    if n > 0 {
      InvariantHolds(states, events, n - 1);
      hide Perform, Invariant, Allowed;
      StepKeeps(states[n - 1], events[n - 1]);
    }
  }

  // Accepted decisions about an upload: an import or a discard that was not refused.
  ghost predicate Accepts(s: System, e: Event, u: int) {
    && u in s.uploads
    && ((e == RequestDiscard(u) && s.uploads[u].status in {Validated, Invalid})
        || (e.RequestImport? && e.upload == u && s.uploads[u].status == Validated))
  }

  ghost function Decisions(states: seq<System>, events: seq<Event>, u: int, n: nat): nat
    requires n <= |events| < |states|
  {
    if n == 0 then 0
    else Decisions(states, events, u, n - 1) + (if Accepts(states[n - 1], events[n - 1], u) then 1 else 0)
  }

  ghost predicate Decided(s: System, u: int) {
    u in s.uploads && s.uploads[u].status != Validated && s.uploads[u].status != Invalid
  }

  lemma UploadsPersist(s: System, e: Event, u: int)
    requires Contents(s) && Allowed(s, e) && u in s.uploads
    ensures var next := Perform(s, e); u in next.uploads && u in next.original && next.original[u] == s.original[u]
  {
    hide J.Perform, ImportOf, ActiveOrNew;
  }

  lemma StepDecides(s: System, e: Event, u: int)
    requires Requests(s) && ImportJobs(s) && Importers(s) && Allowed(s, e)
    ensures Decided(Perform(s, e), u) <==> Decided(s, u) || Accepts(s, e, u)
    ensures Decided(s, u) ==> !Accepts(s, e, u)
  {
    hide J.Perform, ImportOf, ActiveOrNew;
  }

  // Over every run an upload is either imported or discarded, never both and never
  // twice: at most one such request is accepted, exactly when the upload shows it.
  lemma {:induction false} DecidedAtMostOnce(states: seq<System>, events: seq<Event>, u: int, n: nat)
    requires IsRun(states, events) && n <= |events|
    ensures Decisions(states, events, u, n) == if Decided(states[n], u) then 1 else 0
  {
    if n > 0 {
      DecidedAtMostOnce(states, events, u, n - 1);
      InvariantHolds(states, events, n - 1);
      hide Perform, Invariant, Allowed, Decided, Accepts;
      StepDecides(states[n - 1], events[n - 1], u);
    }
  }

  lemma {:induction false} JobsPersist(states: seq<System>, events: seq<Event>, j: int, m: nat, n: nat)
    requires IsRun(states, events) && m <= n <= |events| && ImportOf(states[m].jobs, j).Some?
    ensures ImportOf(states[n].jobs, j) == ImportOf(states[m].jobs, j)
    decreases n - m
  {
    if m < n {
      JobsPersist(states, events, j, m, n - 1);
      InvariantHolds(states, events, n - 1);
      hide Perform, Allowed, ImportOf, Requests, ImportJobs, Importers, Contents;
      ImportsAfter(states[n - 1], events[n - 1]);
    }
  }

  // An upload has at most one import job in all of a run.
  lemma AtMostOneImportJob(states: seq<System>, events: seq<Event>, i: int, j: int, m: nat, n: nat)
    requires IsRun(states, events) && m <= |events| && n <= |events|
    requires ImportOf(states[m].jobs, i).Some? && ImportOf(states[m].jobs, i) == ImportOf(states[n].jobs, j)
    ensures i == j
  {
    hide Perform, Allowed, ImportOf;
    JobsPersist(states, events, i, m, |events|);
    JobsPersist(states, events, j, n, |events|);
    InvariantHolds(states, events, |events|);
  }

  lemma CreatedIsKept(s: System, e: Event)
    requires e.CreateUpload?
    ensures var next := Perform(s, e); e.newId in next.uploads && e.newId in next.original
    ensures Perform(s, e).original[e.newId] == e.content
  {
  }

  lemma {:induction false} OriginalIsUploaded(states: seq<System>, events: seq<Event>, m: nat, n: nat)
    requires IsRun(states, events) && m < n <= |events| && events[m].CreateUpload?
    ensures events[m].newId in states[n].uploads && events[m].newId in states[n].original
    ensures states[n].original[events[m].newId] == events[m].content
    decreases n
  {
    hide Perform, Allowed, Requests, ImportJobs, Importers, Contents;
    if m == n - 1 {
      CreatedIsKept(states[m], events[m]);
    } else {
      OriginalIsUploaded(states, events, m, n - 1);
      InvariantHolds(states, events, n - 1);
      UploadsPersist(states[n - 1], events[n - 1], events[m].newId);
    }
  }

  // A worker that passed the queued-status check reads exactly what was uploaded, never
  // the emptied content of a discarded upload, however the clients race with it.
  lemma ImporterReadsTheUpload(states: seq<System>, events: seq<Event>, m: nat, n: nat)
    requires IsRun(states, events) && m < n < |events| && events[m].CreateUpload? && events[n].ReadContent?
    requires events[n].job in states[n].importers && states[n].importers[events[n].job] == Checked(events[m].newId)
    ensures states[n + 1].importers[events[n].job] == Read(events[m].newId, events[m].content)
  {
    OriginalIsUploaded(states, events, m, n);
    InvariantHolds(states, events, n);
    hide Allowed, J.Perform, ActiveOrNew;
    assert IsBegun(states[n], events[m].newId);
  }

  // ------------------------------------------------------------ when "imported" lasts

  predicate IsImported(s: System, u: int) {
    u in s.uploads && s.uploads[u].status == Imported
  }

  // The request that still has to link its job to the upload.
  predicate Links(s: System, e: Event, u: int) {
    e.LinkImportJob? && e.handler in s.handlers && s.handlers[e.handler].JobQueued? && s.handlers[e.handler].upload == u
  }

  // "imported" is not terminal: the second status write of the import request names no
  // expected status, and it is the one step that takes an upload out of "imported".
  lemma ImportedIsLostIff(s: System, e: Event, u: int)
    requires Invariant(s) && Allowed(s, e) && IsImported(s, u)
    ensures IsImported(Perform(s, e), u) <==> !Links(s, e, u)
  {
    hide J.Perform, ActiveOrNew, Contents, ImportOf;
  }

  ghost predicate NoOpenRequest(s: System, u: int) {
    forall h :: h in s.handlers && !s.handlers[h].Done? ==> s.handlers[h].upload != u
  }

  lemma StepKeepsClosed(s: System, e: Event, u: int)
    requires Invariant(s) && Allowed(s, e) && IsImported(s, u) && NoOpenRequest(s, u)
    ensures IsImported(Perform(s, e), u) && NoOpenRequest(Perform(s, e), u)
  {
    ImportedIsLostIff(s, e, u);
    hide J.Perform, ActiveOrNew, Contents, ImportOf, Importers, ImportJobs;
  }

  // Once the import request is answered, an imported upload stays imported for good.
  lemma {:induction false} ImportedIsFinalOnceLinked(states: seq<System>, events: seq<Event>, u: int, m: nat, n: nat)
    requires IsRun(states, events) && m <= n <= |events|
    requires IsImported(states[m], u) && NoOpenRequest(states[m], u)
    ensures IsImported(states[n], u) && NoOpenRequest(states[n], u)
    decreases n - m
  {
    if m < n {
      ImportedIsFinalOnceLinked(states, events, u, m, n - 1);
      InvariantHolds(states, events, n - 1);
      hide Perform, Allowed, Invariant, IsImported, NoOpenRequest;
      StepKeepsClosed(states[n - 1], events[n - 1], u);
    }
  }

  // A run exists in which the import job ends before the request that queued it links it.
  ghost predicate Reachable(s: System) {
    exists states, events :: IsRun(states, events) && states[|events|] == s
  }

  lemma ReachableStep(s: System, e: Event)
    requires Reachable(s) && Allowed(s, e)
    ensures Reachable(Perform(s, e))
  {
    hide Allowed, Perform;
    var states, events :| IsRun(states, events) && states[|events|] == s;
    assert IsRun(states + [Perform(s, e)], events + [e]);
  }

  const CLAIMED := System(
    map[1 := Upload(Waiting, [7], None)], map[1 := [7]],
    map[5 := J.Start(J.NewJob(J.IMPORT_UPLOAD, J.ForUpload(1), "alice", 0, None), "worker", 1)],
    map[10 := JobQueued(1, 5)], map[])

  lemma ClaimedIsReachable()
    ensures Reachable(CLAIMED)
  {
    assert IsRun([INITIAL], []);
    var s1 := Perform(INITIAL, CreateUpload(1, [7], true));
    ReachableStep(INITIAL, CreateUpload(1, [7], true));
    var s2 := Perform(s1, RequestImport(10, 1));
    ReachableStep(s1, RequestImport(10, 1));
    var s3 := Perform(s2, QueueImportJob(10, 5, "alice", 0));
    ReachableStep(s2, QueueImportJob(10, 5, "alice", 0));
    var claim := J.Claim("worker", 1, {J.IMPORT_UPLOAD}, {});
    assert J.IsOldest(s3.jobs, 5, {J.IMPORT_UPLOAD}, {});
    J.OldestIsUnique(s3.jobs, 5, {J.IMPORT_UPLOAD}, {});
    ReachableStep(s3, JobStep(claim));
    assert Perform(s3, JobStep(claim)) == CLAIMED;
  }

  lemma ImportedCanRevert()
    ensures exists s, e :: Reachable(s) && Allowed(s, e) && IsImported(s, 1) && !IsImported(Perform(s, e), 1)
  {
    hide J.Perform, J.FreshIds, Reachable;
    ClaimedIsReachable();
    var s5 := Perform(CLAIMED, BeginImport(5));
    ReachableStep(CLAIMED, BeginImport(5));
    var s6 := Perform(s5, CheckUpload(5));
    ReachableStep(s5, CheckUpload(5));
    var s7 := Perform(s6, ReadContent(5));
    ReachableStep(s6, ReadContent(5));
    var s8 := Perform(s7, WriteOutcome(5, RowsAccepted));
    ReachableStep(s7, WriteOutcome(5, RowsAccepted));
    assert Allowed(s8, LinkImportJob(10)) && IsImported(s8, 1) && !IsImported(Perform(s8, LinkImportJob(10)), 1);
  }
}
