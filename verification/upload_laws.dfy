// What an upload's row tells of its history (src/adaptive_quant/api/control.py:540-606,
// src/adaptive_quant/worker/handlers.py:105-130): which step gave it its status, and what
// each step does when its turn has come.
module UploadLaws {
  import opened Wrappers
  import opened Uploads
  import J = Jobs

  // The step writes the row of upload `u`: with that status, and that job if it names one.
  ghost predicate Writes(s: System, e: Event, u: int, status: UploadStatus, job: Option<int>) {
    u in s.uploads
    && match e
       case RequestImport(h, x) => x == u && s.uploads[u].status == Validated && status == Waiting && job.None?
       case LinkImportJob(h) =>
         h in s.handlers && job.Some? && s.handlers[h] == JobQueued(u, job.value) && status == Waiting
       case RequestDiscard(x) =>
         && x == u && (s.uploads[u].status == Validated || s.uploads[u].status == Invalid)
         && status == Discarded && job.None?
       case WriteOutcome(j, verdict) =>
         && j in s.importers && s.importers[j].Read? && s.importers[j].upload == u
         && status == (if verdict == RowsAccepted then Imported else ImportFailed)
         && job == (if verdict == Raised then None else Some(j))
       case _ => false
  }

  // Exactly these steps change a row, and each does what it says.
  lemma StepWrites(s: System, e: Event, u: int)
    requires u in s.uploads && Allowed(s, e)
    ensures var next := Perform(s, e);
      && u in next.uploads
      && (forall status, job :: Writes(s, e, u, status, job) ==>
            next.uploads[u].status == status && next.uploads[u].jobId == if job.Some? then job else s.uploads[u].jobId)
      && ((forall status, job :: !Writes(s, e, u, status, job)) ==> next.uploads[u] == s.uploads[u])
  {
    hide J.Perform, ActiveOrNew, ImportOf;
    WriteIs(s, e, u);
  }

  lemma WriteIs(s: System, e: Event, u: int)
    requires u in s.uploads && Allowed(s, e)
    ensures u in Perform(s, e).uploads && Perform(s, e).uploads[u] != s.uploads[u] ==>
      exists status, job :: Writes(s, e, u, status, job)
  {
    hide J.Perform, ActiveOrNew, ImportOf;
    match e
    case RequestImport(h, x) =>
      assert x == u && s.uploads[u].status == Validated ==> Writes(s, e, u, Waiting, None);
    case LinkImportJob(h) =>
      if h in s.handlers && s.handlers[h].JobQueued? && s.handlers[h].upload == u {
        assert Writes(s, e, u, Waiting, Some(s.handlers[h].job));
      }
    case RequestDiscard(x) =>
      assert x == u && s.uploads[u].status in {Validated, Invalid} ==> Writes(s, e, u, Discarded, None);
    case WriteOutcome(j, verdict) =>
      if j in s.importers && s.importers[j].Read? && s.importers[j].upload == u {
        assert Writes(s, e, u, if verdict == RowsAccepted then Imported else ImportFailed,
                      if verdict == Raised then None else Some(j));
      }
    case _ =>
  }

  // A new upload is validated or invalid, with its content and no job.
  lemma CreatedIs(s: System, e: Event)
    requires Allowed(s, e) && e.CreateUpload?
    ensures var next := Perform(s, e);
      && next.uploads == s.uploads[e.newId := Upload(if e.valid then Validated else Invalid, e.content, None)]
      && next.original[e.newId] == e.content
  {
  }

  // Over every run, the last step that wrote an upload's row, and why the row says what
  // it says: an imported one had all of its content read and its rows accepted.
  lemma {:induction false} StatusHasItsStep(states: seq<System>, events: seq<Event>, n: nat, u: int) returns (k: nat)
    requires IsRun(states, events) && n <= |events| && u in states[n].uploads
    ensures k < n
    ensures var status := states[n].uploads[u].status;
      if events[k].CreateUpload? && events[k].newId == u
      then status == if events[k].valid then Validated else Invalid
      else exists job :: Writes(states[k], events[k], u, status, job)
    ensures forall m :: k < m <= n ==>
      u in states[m].uploads && states[m].uploads[u].status == states[n].uploads[u].status
  {
    var s, e := states[n - 1], events[n - 1];
    assert states[n] == Perform(s, e) && Allowed(s, e);
    hide Perform, Allowed;
    k := n - 1;
    if u in s.uploads {
      StepWrites(s, e, u);
      if status, job :| Writes(s, e, u, status, job) {
      } else {
        k := StatusHasItsStep(states, events, n - 1, u);
      }
    } else {
      NewIsCreated(s, e, u);
    }
  }

  lemma NewIsCreated(s: System, e: Event, u: int)
    requires Allowed(s, e) && u !in s.uploads && u in Perform(s, e).uploads
    ensures e.CreateUpload? && e.newId == u && Perform(s, e).uploads[u].status == if e.valid then Validated else Invalid
  {
    hide J.Perform, ActiveOrNew, ImportOf;
  }

  // ------------------------------------------------------------ the requests and importers

  // An accepted request queues the import job of its upload.
  lemma QueuesTheImport(s: System, e: Event)
    requires Invariant(s) && Allowed(s, e) && e.QueueImportJob?
    requires e.handler in s.handlers && s.handlers[e.handler].Accepted?
    ensures var next, u := Perform(s, e), s.handlers[e.handler].upload;
      && e.handler in next.handlers && next.handlers[e.handler] == JobQueued(u, e.newJob)
      && ImportOf(next.jobs, e.newJob) == Some(u) && next.jobs[e.newJob].status == J.Queued
  {
    CreatedImport(s.jobs, s.handlers[e.handler].upload, e.newJob, e.actor, e.now);
  }

  // A request is accepted exactly for a validated upload, and answered once its job is
  // linked.
  lemma RequestIs(s: System, e: Event)
    requires Allowed(s, e) && e.RequestImport?
    ensures var next := Perform(s, e);
      if e.upload in s.uploads && s.uploads[e.upload].status == Validated
      then next.handlers == s.handlers[e.handler := Accepted(e.upload)]
      else next == s
  {
  }

  // Linking the job is the last of a request.
  lemma LinkIsLast(s: System, e: Event)
    requires Invariant(s) && Allowed(s, e) && e.LinkImportJob?
    ensures Perform(s, e).handlers
      == if e.handler in s.handlers && s.handlers[e.handler].JobQueued? then s.handlers[e.handler := Done]
        else s.handlers
  {
  }

  // An importer reads its upload: it goes on exactly if that is waiting, and with its
  // content as it is.
  lemma ImporterReads(s: System, e: Event)
    requires e.CheckUpload? || e.ReadContent?
    requires e.job in s.importers
    ensures var was, now := s.importers[e.job], Perform(s, e).importers[e.job];
      && (e.CheckUpload? && was.Started? ==>
            now == if was.upload in s.uploads && s.uploads[was.upload].status == Waiting then Checked(was.upload)
              else Left)
      && (e.ReadContent? && was.Checked? && was.upload in s.uploads ==>
            now == Read(was.upload, s.uploads[was.upload].content))
      && Perform(s, e).uploads == s.uploads
  {
  }
}
