/**
 Properties of the shared lifecycle: every operation keeps the
 write-then-publish invariant, so a completed job's audio is always served;
 deletion is final; and the executor's unconditional last write brings back
 a record deleted while the job was in flight.
 */
module LifecycleProperties {

  import opened Wrappers
  import opened Naming
  import opened JobStore
  import opened Lifecycle

  lemma CreatePreservesPublished(svc: Service, sys: Sys, req: CreateRequest, jobId: string, createdAt: string, now: int)
    requires Published(svc, sys)
    ensures Published(svc, Sys(Create(svc, sys.store, req, jobId, createdAt, now).store, sys.files))
  {
  }

  lemma BeginPreservesPublished(svc: Service, sys: Sys, task: Task, now: int)
    requires Published(svc, sys)
    requires Begin(svc, sys.store, task, now).Some?
    ensures var started := Begin(svc, sys.store, task, now).value;
      Published(svc, Sys(started.store, sys.files)) && WellNamed(task.jobId, started.local)
  {
  }

  /** Files only appear while the engine runs, so nothing published is lost. */
  lemma GrowingFilesPreservePublished(svc: Service, store: Store, before: Files, after: Files)
    requires Published(svc, Sys(store, before))
    requires before.Keys <= after.Keys
    ensures Published(svc, Sys(store, after))
  {
  }

  lemma FinishPreservesPublished(svc: Service, sys: Sys, jobId: string, local: Job, outcome: Outcome, now: int)
    requires Published(svc, sys)
    requires WellNamed(jobId, local)
    ensures Published(svc, Sys(Finish(svc, sys, jobId, local, outcome, now).store, sys.files))
  {
    var r := Finish(svc, sys, jobId, local, outcome, now);
    if r.written.Some? && r.written.value.status == Completed {
      var job := r.written.value;
      assert job.segments[0].id == SegmentId(jobId, 0);
      assert WellNamed(jobId, job);
    }
  }

  /** A whole executor run keeps the invariant, whatever the engine wrote
      in between, as long as it only added or overwrote files. */
  lemma RunPreservesPublished(svc: Service, sys: Sys, task: Task, files: Files, outcome: Outcome, t1: int, t2: int)
    requires Published(svc, sys)
    requires Begin(svc, sys.store, task, t1).Some?
    requires sys.files.Keys <= files.Keys
    ensures var started := Begin(svc, sys.store, task, t1).value;
      Published(svc, Sys(Finish(svc, Sys(started.store, files), task.jobId, started.local, outcome, t2).store, files))
  {
    var started := Begin(svc, sys.store, task, t1).value;
    BeginPreservesPublished(svc, sys, task, t1);
    GrowingFilesPreservePublished(svc, started.store, sys.files, files);
    FinishPreservesPublished(svc, Sys(started.store, files), task.jobId, started.local, outcome, t2);
  }

  /** The files of one job never include a segment file of another job. */
  lemma OtherJobsFilesSurvive(svc: Service, sys: Sys, victim: string, k: string, i: nat)
    requires Published(svc, sys)
    requires victim in sys.store && k in sys.store && k != victim
    requires i < |sys.store[k].job.segments|
    ensures SegmentPath(svc, k, sys.store[k].job.segments[i].id)
      !in SegmentPaths(svc, victim, sys.store[victim].job.segments)
  {
    var seg := sys.store[k].job.segments[i];
    var gone := sys.store[victim].job.segments;
    if p :| p in SegmentPaths(svc, victim, gone) && p == SegmentPath(svc, k, seg.id) {
      var j :| 0 <= j < |gone| && p == SegmentPath(svc, victim, gone[j].id);
      CachePathInjective(svc.cacheDir, k, seg.id, victim, gone[j].id, svc.ext);
      assert seg.id == SegmentId(k, seg.index);
      assert gone[j].id == SegmentId(victim, gone[j].index);
      SegmentIdInjective(k, seg.index, victim, gone[j].index);
    }
  }

  lemma DeletePreservesPublished(svc: Service, sys: Sys, jobId: string, now: int)
    requires Published(svc, sys)
    ensures Published(svc, DeleteJob(svc, sys, jobId, now).sys)
  {
    var r := DeleteJob(svc, sys, jobId, now);
    if Live(sys.store, jobId, now) {
      forall k | k in r.sys.store
        ensures FilesPublished(svc, k, r.sys.store[k].job, r.sys.files)
      {
        var job := r.sys.store[k].job;
        if job.status == Completed {
          forall i | 0 <= i < |job.segments|
            ensures SegmentPath(svc, k, job.segments[i].id) in r.sys.files
          {
            OtherJobsFilesSurvive(svc, sys, jobId, k, i);
          }
        }
      }
    }
  }

  /** Write-before-publish, as clients see it: while the invariant holds, a
      completed job serves the audio of every segment it lists. */
  lemma CompletedAudioIsServed(svc: Service, sys: Sys, jobId: string, i: nat, now: int)
    requires Published(svc, sys)
    requires Live(sys.store, jobId, now)
    requires sys.store[jobId].job.status == Completed
    requires i < |sys.store[jobId].job.segments|
    ensures var segmentId := sys.store[jobId].job.segments[i].id;
      GetSegmentAudio(svc, sys, jobId, segmentId, now).Ok?
  {
    var job := sys.store[jobId].job;
    assert SegmentPath(svc, jobId, job.segments[i].id) in sys.files;
  }

  /** After a successful delete the job is gone for every client call, a
      second delete fails, and its segment files no longer resolve. */
  lemma DeleteIsFinal(svc: Service, sys: Sys, jobId: string, segmentId: string, now: int, later: int)
    requires DeleteJob(svc, sys, jobId, now).reply.Ok?
    ensures var after := DeleteJob(svc, sys, jobId, now).sys;
      && GetStatus(after.store, jobId, later) == Err(JobNotFound)
      && GetSegmentAudio(svc, after, jobId, segmentId, later) == Err(JobNotFound)
      && DeleteJob(svc, after, jobId, later).reply == Err(JobNotFound)
      && forall p :: p in SegmentPaths(svc, jobId, sys.store[jobId].job.segments) ==> p !in after.files
  {
  }

  /** A job deleted by a client while synthesis was running is written back
      with a terminal status by the executor's last, unconditional write. */
  lemma DeletedInFlightIsRecreated(
    svc: Service, sys: Sys, task: Task, outcome: Outcome, t0: int, t1: int, t2: int)
    requires Begin(svc, sys.store, task, t0).Some?
    requires t0 <= t1 < t0 + JobExpirySeconds
    requires outcome.Returned?
    ensures var started := Begin(svc, sys.store, task, t0).value;
      var deleted := DeleteJob(svc, Sys(started.store, sys.files), task.jobId, t1);
      var finished := Finish(svc, deleted.sys, task.jobId, started.local, outcome, t2);
      && deleted.reply.Ok?
      && Get(deleted.sys.store, task.jobId, t2) == None
      && Get(finished.store, task.jobId, t2).Some?
      && Get(finished.store, task.jobId, t2).value.status.IsTerminal()
  {
  }

  /** The exception path, unlike the normal one, leaves a deleted job deleted. */
  lemma RaisedAfterDeleteWritesNothing(svc: Service, sys: Sys, jobId: string, local: Job, message: string, now: int)
    requires !Live(sys.store, jobId, now)
    ensures Finish(svc, sys, jobId, local, Raised(message), now).store == sys.store
  {
  }
}
