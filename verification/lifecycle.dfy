/**
 The job lifecycle both FastAPI services implement: create a `pending`
 record and hand the work to a background executor; the executor moves the
 record to `processing`, calls the synthesis engine once and writes a
 terminal `completed` or `failed` record; clients read the status, fetch
 segment audio and delete jobs.

 The services differ only in the data a `Service` value carries (cache
 directory, default voice, file extension, media type, and whether the
 record keeps `prefer_phonemes`); everything here is shared. The Redis store
 is a `Store` map with per-key expiry and the cache directory is a map from
 file path to file content.
 */
module Lifecycle {

  import opened Wrappers
  import opened Text
  import opened Naming
  import opened JobStore

  /** The cache directory: file path to file content. */
  type Files = map<string, seq<byte>>

  datatype Service = Service(
    cacheDir: string,
    defaultVoice: string,
    ext: string,
    mediaType: string,
    recordsPhonemes: bool)

  /** The two shared resources: the job store and the audio cache. */
  datatype Sys = Sys(store: Store, files: Files)

  datatype HttpError = HttpError(code: nat, detail: string)

  datatype Reply<T> = Ok(value: T) | Err(error: HttpError)

  const JobNotFound := HttpError(404, "Job not found")
  const SegmentNotFound := HttpError(404, "Segment not found")
  const AudioFileNotFound := HttpError(404, "Audio file not found")
  const TextRequired := HttpError(400, "Text is required")
  const SynthesisFailed := "Synthesis failed"

  function NotCompleted(status: Status): HttpError {
    HttpError(400, "Job is " + status.Name() + ", not completed")
  }

  /** The cache file of a segment. */
  function SegmentPath(svc: Service, jobId: string, segmentId: string): string {
    CachePath(svc.cacheDir, jobId, segmentId, svc.ext)
  }

  // ---------------------------------------------------------------- create

  /** The body of `POST /v1/tts/jobs`. */
  datatype CreateRequest = CreateRequest(
    text: string,
    voice: Option<string>,
    modelId: Option<string>,
    preferPhonemes: Option<bool>)

  /** The arguments handed to the background executor. */
  datatype Task = Task(jobId: string, text: string, voice: string, preferPhonemes: bool)

  datatype Created = Created(jobId: string, status: Status, message: string)

  datatype CreateResult = CreateResult(store: Store, reply: Reply<Created>, task: Option<Task>)

  /** `request.voice or request.model_id or DEFAULT_VOICE`: the first truthy
      choice wins. */
  function ResolveVoice(voice: Option<string>, modelId: Option<string>, default: string): (r: string)
    ensures Truthy(voice) ==> r == voice.value
    ensures !Truthy(voice) && Truthy(modelId) ==> r == modelId.value
    ensures !Truthy(voice) && !Truthy(modelId) ==> r == default
  {
    if Truthy(voice) then voice.value
    else if Truthy(modelId) then modelId.value
    else default
  }

  /** `request.prefer_phonemes or False`. */
  function PhonemeFlag(req: CreateRequest): bool {
    req.preferPhonemes == Some(true)
  }

  /** `create_job`: rejects blank text with 400 and stores nothing; otherwise
      stores a `pending` record under the fresh id `jobId` and schedules the
      executor on the trimmed text. `createdAt` stands for the UTC timestamp. */
  function Create(svc: Service, store: Store, req: CreateRequest, jobId: string, createdAt: string, now: int)
    : (r: CreateResult)
    ensures r.reply.Err? <==> IsBlank(req.text)
    ensures r.reply.Err? ==> r.reply.error == TextRequired && r.store == store && r.task.None?
    ensures r.reply.Ok? ==>
      && r.reply.value == Created(jobId, Pending, "Job created successfully")
      && var voice := ResolveVoice(req.voice, req.modelId, svc.defaultVoice);
      && r.task == Some(Task(jobId, Strip(req.text), voice, PhonemeFlag(req)))
      && Strip(req.text) != []
      && var job := Job(
           jobId, Pending, createdAt, |req.text|, Some(voice),
           if svc.recordsPhonemes then Some(PhonemeFlag(req)) else None,
           [], None);
      && r.store == Put(store, jobId, job, now)
      && Get(r.store, jobId, now) == Some(job)
      && r.store.Keys == store.Keys + {jobId}
      && forall k :: k in store && k != jobId ==> r.store[k] == store[k]
  {
    if IsBlank(req.text) then CreateResult(store, Err(TextRequired), None)
    else
      var voice := ResolveVoice(req.voice, req.modelId, svc.defaultVoice);
      var job := Job(
        jobId, Pending, createdAt, |req.text|, Some(voice),
        if svc.recordsPhonemes then Some(PhonemeFlag(req)) else None,
        [], None);
      CreateResult(
        Put(store, jobId, job, now),
        Ok(Created(jobId, Pending, "Job created successfully")),
        Some(Task(jobId, Strip(req.text), voice, PhonemeFlag(req))))
  }

  // ------------------------------------------------------------ status

  /** `get_job_status`: the stored record, or 404 when it is missing or
      expired. */
  function GetStatus(store: Store, jobId: string, now: int): (r: Reply<Job>)
    ensures r.Ok? <==> Live(store, jobId, now)
    ensures r.Ok? ==> r.value == store[jobId].job
    ensures r.Err? ==> r.error == JobNotFound
  {
    match Get(store, jobId, now)
    case None => Err(JobNotFound)
    case Some(job) => Ok(job)
  }

  // ------------------------------------------------------- segment audio

  datatype FileResponse = FileResponse(path: string, mediaType: string, filename: string)

  /** Position of the first segment whose id is `id`. */
  function FindSegment(segments: seq<Segment>, id: string): (r: Option<nat>)
    ensures r.Some? ==> r.value < |segments| && segments[r.value].id == id
    ensures r.Some? ==> forall j :: 0 <= j < r.value ==> segments[j].id != id
    ensures r.None? <==> forall j :: 0 <= j < |segments| ==> segments[j].id != id
  {
    if segments == [] then None
    else if segments[0].id == id then Some(0)
    else match FindSegment(segments[1..], id)
      case None => None
      case Some(i) => Some(i + 1)
  }

  /** `get_segment_audio`: the checks run in a fixed order — missing job
      (404), job not completed (400), unknown segment (404), missing cache
      file (404) — and only a request passing all four gets the file. */
  function GetSegmentAudio(svc: Service, sys: Sys, jobId: string, segmentId: string, now: int)
    : (r: Reply<FileResponse>)
    ensures !Live(sys.store, jobId, now) <==> r == Err(JobNotFound)
    ensures Live(sys.store, jobId, now) ==>
      var job := sys.store[jobId].job;
      var path := SegmentPath(svc, jobId, segmentId);
      var known := exists j :: 0 <= j < |job.segments| && job.segments[j].id == segmentId;
      && (job.status != Completed ==> r == Err(NotCompleted(job.status)))
      && (job.status == Completed && !known ==> r == Err(SegmentNotFound))
      && (job.status == Completed && known && path !in sys.files ==> r == Err(AudioFileNotFound))
      && (r.Ok? <==> job.status == Completed && known && path in sys.files)
    ensures r.Ok? ==>
      r.value == FileResponse(SegmentPath(svc, jobId, segmentId), svc.mediaType, segmentId + svc.ext)
  {
    match Get(sys.store, jobId, now)
    case None => Err(JobNotFound)
    case Some(job) =>
      if job.status != Completed then Err(NotCompleted(job.status))
      else if FindSegment(job.segments, segmentId).None? then Err(SegmentNotFound)
      else
        var path := SegmentPath(svc, jobId, segmentId);
        if path !in sys.files then Err(AudioFileNotFound)
        else Ok(FileResponse(path, svc.mediaType, segmentId + svc.ext))
  }

  // -------------------------------------------------------------- delete

  /** The cache files a record's segments name. */
  function SegmentPaths(svc: Service, jobId: string, segments: seq<Segment>): set<string> {
    set i | 0 <= i < |segments| :: SegmentPath(svc, jobId, segments[i].id)
  }

  /** The unlink loop of `delete_job`: each segment's file is removed if it
      exists; a missing file is skipped, and nothing else is touched. */
  function UnlinkSegments(svc: Service, files: Files, jobId: string, segments: seq<Segment>): (r: Files)
    ensures r.Keys == files.Keys - SegmentPaths(svc, jobId, segments)
    ensures forall p :: p in r ==> r[p] == files[p]
  {
    if segments == [] then files
    else
      var path := SegmentPath(svc, jobId, segments[0].id);
      var after := if path in files then files - {path} else files;
      var r := UnlinkSegments(svc, after, jobId, segments[1..]);
      assert SegmentPaths(svc, jobId, segments)
          == {path} + SegmentPaths(svc, jobId, segments[1..]) by {
        forall p | p in SegmentPaths(svc, jobId, segments)
          ensures p in {path} + SegmentPaths(svc, jobId, segments[1..])
        {
          var i :| 0 <= i < |segments| && p == SegmentPath(svc, jobId, segments[i].id);
          if i > 0 {
            assert segments[1..][i - 1] == segments[i];
          }
        }
        forall p | p in SegmentPaths(svc, jobId, segments[1..])
          ensures p in SegmentPaths(svc, jobId, segments)
        {
          var i :| 0 <= i < |segments[1..]| && p == SegmentPath(svc, jobId, segments[1..][i].id);
          assert segments[1..][i] == segments[i + 1];
        }
      }
      r
  }

  datatype Deleted = Deleted(sys: Sys, reply: Reply<string>)

  /** `delete_job`: 404 for a missing or expired job; otherwise the segment
      files go first and the record second. */
  function DeleteJob(svc: Service, sys: Sys, jobId: string, now: int): (r: Deleted)
    ensures !Live(sys.store, jobId, now) ==> r == Deleted(sys, Err(JobNotFound))
    ensures Live(sys.store, jobId, now) ==>
      var job := sys.store[jobId].job;
      && r.reply == Ok("Job deleted successfully")
      && r.sys.store == Remove(sys.store, jobId)
      && r.sys.files.Keys == sys.files.Keys - SegmentPaths(svc, jobId, job.segments)
      && forall p :: p in r.sys.files ==> r.sys.files[p] == sys.files[p]
  {
    match Get(sys.store, jobId, now)
    case None => Deleted(sys, Err(JobNotFound))
    case Some(job) =>
      var files := UnlinkSegments(svc, sys.files, jobId, job.segments);
      Deleted(Sys(Remove(sys.store, jobId), files), Ok("Job deleted successfully"))
  }

  // ------------------------------------------------------------ executor

  /** What the executor asks the synthesis engine for. */
  datatype SynthRequest = SynthRequest(text: string, voice: string, outputPath: string, preferPhonemes: bool)

  datatype Started = Started(store: Store, local: Job, request: SynthRequest)

  /** The first half of `process_job_with_new_redis`: re-read the record; if
      it is gone, do nothing; otherwise write it back as `processing` and
      prepare the engine call, taking the voice from the stored record
      (defaulting to the service's default) rather than from the task. */
  function Begin(svc: Service, store: Store, task: Task, now: int): (r: Option<Started>)
    ensures r.None? <==> !Live(store, task.jobId, now)
    ensures r.Some? ==>
      var cur := store[task.jobId].job;
      var segmentId := SegmentId(task.jobId, 0);
      && r.value.local == cur.(status := Processing)
      && Get(r.value.store, task.jobId, now) == Some(r.value.local)
      && r.value.store == Put(store, task.jobId, r.value.local, now)
      && r.value.request.voice == cur.voice.GetOr(svc.defaultVoice)
      && r.value.request.text == task.text
      && r.value.request.outputPath == SegmentPath(svc, task.jobId, segmentId)
      && r.value.request.preferPhonemes == task.preferPhonemes
  {
    match Get(store, task.jobId, now)
    case None => None
    case Some(cur) =>
      var local := cur.(status := Processing);
      var segmentId := SegmentId(task.jobId, 0);
      var request := SynthRequest(
        task.text, cur.voice.GetOr(svc.defaultVoice),
        SegmentPath(svc, task.jobId, segmentId), task.preferPhonemes);
      Some(Started(Put(store, task.jobId, local, now), local, request))
  }

  /** How the body of the executor's `try` ended: the engine returned a
      success flag (and, for the timed engine, word timings), or something in
      the body raised with a message. */
  datatype Outcome = Returned(success: bool, timings: Option<seq<WordTiming>>) | Raised(message: string)

  datatype Finished = Finished(store: Store, written: Option<Job>)

  /** The only segment a completed job has. */
  function CompletedSegment(svc: Service, jobId: string, fileSize: nat, timings: Option<seq<WordTiming>>): Segment {
    var segmentId := SegmentId(jobId, 0);
    Segment(segmentId, 0, Completed, AudioUrl(jobId, segmentId), fileSize, svc.mediaType, timings)
  }

  /** The second half of `process_job_with_new_redis`. When the engine
      returned, the terminal record is built from the executor's own copy
      and written unconditionally, so a record deleted or expired meanwhile
      comes back; `completed` needs success and the output file present
      (write-then-publish). When the body raised, the current record is
      re-read and marked `failed` only if it still exists. */
  function Finish(svc: Service, sys: Sys, jobId: string, local: Job, outcome: Outcome, now: int): (r: Finished)
    ensures r.written.None? ==> r.store == sys.store
    ensures r.written.Some? ==>
      && r.store == Put(sys.store, jobId, r.written.value, now)
      && r.written.value.status.IsTerminal()
    ensures outcome.Returned? ==> r.written.Some?
    ensures outcome.Raised? ==> (r.written.Some? <==> Live(sys.store, jobId, now))
    ensures var path := SegmentPath(svc, jobId, SegmentId(jobId, 0));
      r.written.Some? && r.written.value.status == Completed
      <==> outcome.Returned? && outcome.success && path in sys.files
    ensures r.written.Some? && r.written.value.status == Completed ==>
      var path := SegmentPath(svc, jobId, SegmentId(jobId, 0));
      var seg := r.written.value.segments;
      && |seg| == 1
      && seg == [CompletedSegment(svc, jobId, |sys.files[path]|, outcome.timings)]
      && seg[0].id == SegmentId(jobId, 0) && seg[0].index == 0 && seg[0].status == Completed
      && seg[0].audioUrl == AudioUrl(jobId, seg[0].id)
      && seg[0].format == svc.mediaType && seg[0].fileSize == |sys.files[path]|
      && seg[0].wordTimings == outcome.timings
      && r.written.value == local.(status := Completed, segments := seg)
    ensures outcome.Returned? && r.written.value.status == Failed ==>
      r.written.value == local.(status := Failed, error := Some(SynthesisFailed))
    ensures outcome.Raised? && r.written.Some? ==>
      r.written.value == sys.store[jobId].job.(status := Failed, error := Some(outcome.message))
  {
    match outcome
    case Returned(success, timings) =>
      var path := SegmentPath(svc, jobId, SegmentId(jobId, 0));
      var job :=
        if success && path in sys.files then
          local.(status := Completed, segments := [CompletedSegment(svc, jobId, |sys.files[path]|, timings)])
        else
          local.(status := Failed, error := Some(SynthesisFailed));
      Finished(Put(sys.store, jobId, job, now), Some(job))
    case Raised(message) =>
      match Get(sys.store, jobId, now)
      case None => Finished(sys.store, None)
      case Some(cur) =>
        var job := cur.(status := Failed, error := Some(message));
        Finished(Put(sys.store, jobId, job, now), Some(job))
  }

  /** The engine writes (or leaves) its output file; nothing else changes. */
  function WriteOutput(files: Files, path: string, content: Option<seq<byte>>): (r: Files)
    ensures files.Keys <= r.Keys
    ensures content.Some? ==> path in r && r[path] == content.value
    ensures forall p :: p in files && p != path ==> r[p] == files[p]
    ensures r.Keys <= files.Keys + {path}
  {
    match content
    case None => files
    case Some(bytes) => files[path := bytes]
  }

  // ----------------------------------------------------------- invariant

  /** Every segment of the record stored under `key` is named after `key`. */
  predicate WellNamed(key: string, job: Job) {
    forall i :: 0 <= i < |job.segments| ==> job.segments[i].id == SegmentId(key, job.segments[i].index)
  }

  /** A completed record's segment files all exist. */
  predicate FilesPublished(svc: Service, key: string, job: Job, files: Files) {
    job.status == Completed ==>
      forall i :: 0 <= i < |job.segments| ==> SegmentPath(svc, key, job.segments[i].id) in files
  }

  /** The write-then-publish invariant over the whole system: no stored
      record, expired or not, is `completed` while one of its segment files
      is missing, and segment names are derived from their job. */
  predicate Published(svc: Service, sys: Sys) {
    forall k :: k in sys.store ==>
      WellNamed(k, sys.store[k].job) && FilesPublished(svc, k, sys.store[k].job, sys.files)
  }
}
