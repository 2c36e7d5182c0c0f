/**
 The job record and the key/value store that holds it. Every write sets the
 key's expiry to `now + JOB_EXPIRY_SECONDS`; a key whose expiry has passed
 reads as absent, exactly like a key that was never written.
 */
module JobStore {

  import opened Wrappers

  /** `JOB_EXPIRY_SECONDS` in both services. */
  const JobExpirySeconds: nat := 3600

  datatype Status = Pending | Processing | Completed | Failed {

    /** The string stored in the record's `status` field. */
    function Name(): string {
      match this
      case Pending => "pending"
      case Processing => "processing"
      case Completed => "completed"
      case Failed => "failed"
    }

    predicate IsTerminal() {
      Completed? || Failed?
    }
  }

  /** One entry of a segment's `word_timings`: the word, and its offset and
      duration in milliseconds. */
  datatype WordTiming = WordTiming(text: string, offset: real, duration: real)

  /** One entry of the record's `segments` list. `wordTimings` is present only
      in records written by the timed (edge) executor. */
  datatype Segment = Segment(
    id: string,
    index: nat,
    status: Status,
    audioUrl: string,
    fileSize: nat,
    format: string,
    wordTimings: Option<seq<WordTiming>>)

  /** The JSON job record. `voice` is optional because the executor reads it
      with a default; `preferPhonemes` is present only in eSpeak records. */
  datatype Job = Job(
    jobId: string,
    status: Status,
    createdAt: string,
    textLength: nat,
    voice: Option<string>,
    preferPhonemes: Option<bool>,
    segments: seq<Segment>,
    error: Option<string>)

  datatype Entry = Entry(job: Job, expiresAt: int)

  /** The key/value store, one entry per job id. */
  type Store = map<string, Entry>

  /** The key exists and its expiry has not passed. */
  predicate Live(store: Store, jobId: string, now: int) {
    jobId in store && now < store[jobId].expiresAt
  }

  /** `get_job`: the record, or None for a missing or expired key. */
  function Get(store: Store, jobId: string, now: int): (r: Option<Job>)
    ensures r.Some? <==> Live(store, jobId, now)
    ensures r.Some? ==> r.value == store[jobId].job
  {
    if Live(store, jobId, now) then Some(store[jobId].job) else None
  }

  /** `store_job` / `r.set(key, ..., ex=JOB_EXPIRY_SECONDS)`: overwrite the
      record and refresh its expiry; no other key changes. */
  function Put(store: Store, jobId: string, job: Job, now: int): (r: Store)
    ensures forall t :: now <= t < now + JobExpirySeconds ==> Get(r, jobId, t) == Some(job)
    ensures forall t :: t >= now + JobExpirySeconds ==> Get(r, jobId, t) == None
    ensures r.Keys == store.Keys + {jobId}
    ensures forall k :: k in store && k != jobId ==> r[k] == store[k]
  {
    store[jobId := Entry(job, now + JobExpirySeconds)]
  }

  /** `r.delete(key)`: the key is gone; no other key changes. */
  function Remove(store: Store, jobId: string): (r: Store)
    ensures forall t :: Get(r, jobId, t) == None
    ensures r.Keys == store.Keys - {jobId}
    ensures forall k :: k in r ==> r[k] == store[k]
  {
    store - {jobId}
  }
}
