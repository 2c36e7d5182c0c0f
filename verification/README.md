# TTS job services and GPU workers in Dafny

This project models the request-handling core of a small text-to-speech
system:

- two FastAPI services, one over eSpeak-NG and one over Edge-TTS, that share
  a job lifecycle;
- two single-endpoint GPU workers, one over Qwen3-TTS and one over Bark.

In both services a client creates a job with some text. The service stores a
`pending` record in a key/value store under a fresh job id, with a one-hour
expiry, and hands the work to a background executor. The executor re-reads
the record and marks it `processing`. It calls the speech engine once, with
the output going to a cache file named after the job's single segment. It
then writes a `completed` record (only when the audio file exists) or a
`failed` one. Clients poll the status, download segment audio through a fixed
sequence of checks, and delete jobs. A delete removes the segment files first
and the record second.

The GPU workers validate a JSON request: the text must be present and within
a length limit. They choose the voice and turn every exception into an error
result. Each loads its model once, on first use.

Modules, in dependency order:

| file | module | contents |
|---|---|---|
| wrappers.dfy | `Wrappers` | `Option`, and the `byte` type every file and body is made of |
| text.dfy | `Text` | Python string semantics used by the code: `isspace`, `strip`, `split()`, `split('\n')`, ASCII `lower`, prefix test, truthiness |
| decimal.dfy | `Decimal` | `str()` of an integer, with its round trip |
| naming.dfy | `Naming` | segment ids, cache paths and audio URLs, with injectivity lemmas for segment ids and cache paths |
| jobstore.dfy | `JobStore` | the job record and the expiring key/value store |
| lifecycle.dfy | `Lifecycle` | create, status, segment audio, delete and the two halves of the executor, shared by both services; the write-then-publish invariant |
| lifecycle_props.dfy | `LifecycleProperties` | the invariant is preserved; deletion is final; a job deleted in flight comes back |
| espeak.dfy | `Espeak` | eSpeak settings, the `espeak-ng` command line, the executor run, whole-job audio, the `--voices` parser |
| edge.dfy | `Edge` | Edge settings, the timed stream collector and writer, the executor run |
| requests.dfy | `Requests` | JSON request fields, raised-or-returned outcomes, WAV duration |
| worker.dfy | `QwenWorker` | `load_model`, `Worker.process` |
| bark.dfy | `BarkWorker` | the voice preset mapping, `load_bark`, `BarkHandler.do_POST` |

How the model represents the system:

- The store is a map from job id to a record and its expiry time. Time is an
  integer clock. A key reads as absent once `now` reaches its expiry.
- The audio cache is a map from file path to file content, so a file's size
  is the length of its content.
- A service is the shared lifecycle plus a `Service` value holding its cache
  directory, default voice, file extension, media type, and whether the
  record keeps `prefer_phonemes`.
- The engines are inputs:
  - the phoneme conversion result, the subprocess outcome and the bytes
    `espeak-ng` leaves behind;
  - the Edge stream's chunks and the exception that ended it, if any;
  - whether the audio write raised;
  - the model's load result and its generated bytes.
- An exception the executor body raises outside the engine call is an
  optional message argument.

Both services write unconditionally at the end of the executor
(espeak-tts-service/app.py:295, edge-tts-service/app.py:367). So a record
that a client deleted, or that expired, while synthesis was running is
written again with a terminal status. The exception path re-reads the record
and writes only if it still exists. The model keeps this behaviour:
`Lifecycle.Finish` recreates the record when the engine call returns after a
delete, and `LifecycleProperties.DeletedInFlightIsRecreated` proves that it
does.

## Model

| member | source | states |
|---|---|---|
| Naming.SegmentId | espeak-tts-service/app.py:79-81 | the id is the job id, then `-seg-`, then decimal digits whose value is the index, written without leading zeros as `str` writes them |
| Naming.SegmentIdInjective | edge-tts-service/app.py:82-84 | two (job, index) pairs share a segment id only if they are equal |
| Naming.CachePath | espeak-tts-service/app.py:84-86 | the path is the cache directory, `/`, the segment id and the extension; the job id argument plays no part |
| Naming.CachePathInjective | edge-tts-service/app.py:87-89 | distinct segment ids never share a cache file |
| Decimal.DecimalRoundTrip | espeak-tts-service/app.py:79-81 | the digits `str(index)` writes read back as the index |
| JobStore.Get | espeak-tts-service/app.py:96-103 | a record is returned exactly when its key exists and has not expired |
| JobStore.Put | espeak-tts-service/app.py:89-93 | after a write the record reads back for exactly the next 3600 seconds and no other key changes |
| JobStore.Remove | espeak-tts-service/app.py:529-531 | the key reads as absent at every time and no other key changes |
| Lifecycle.ResolveVoice | espeak-tts-service/app.py:388-389 | the first truthy value among `voice`, `model_id` and the default |
| Lifecycle.Create | espeak-tts-service/app.py:385-416 | rejected with 400 "Text is required" exactly when the text is empty or all whitespace, storing nothing; otherwise the stored record is `pending` with no segments and the untrimmed length, and the executor gets the stripped text, which is non-empty; the record is written with the store's write, so it reads back for the next 3600 seconds and no other key changes |
| Espeak.CreateJob | espeak-tts-service/app.py:395-416 | the eSpeak record keeps `prefer_phonemes`, and the executor gets the same flag |
| Edge.CreateJob | edge-tts-service/app.py:267-292 | the Edge record has no `prefer_phonemes` field and keeps the resolved voice the executor gets |
| Lifecycle.GetStatus | espeak-tts-service/app.py:425-437 | the stored record when it is live, 404 "Job not found" otherwise; the Edge handler (edge-tts-service/app.py:385-397) is the same |
| Lifecycle.FindSegment | espeak-tts-service/app.py:456-461 | the position of the first segment with the requested id, or none when no segment has it |
| Lifecycle.GetSegmentAudio | espeak-tts-service/app.py:440-476 | 404 missing job, then 400 "Job is X, not completed", then 404 unknown segment, then 404 missing file, in that order; the file is served exactly when all four checks pass; the Edge handler (edge-tts-service/app.py:400-435) makes the same checks with the `.mp3` path and `audio/mpeg` |
| Lifecycle.UnlinkSegments | espeak-tts-service/app.py:523-527 | exactly the files the record's segments name are gone, and every other file is untouched |
| Lifecycle.DeleteJob | espeak-tts-service/app.py:512-533 | 404 and no change for a missing job; otherwise the segment files and then the record are removed; the Edge handler (edge-tts-service/app.py:438-459) is the same |
| Lifecycle.Begin | espeak-tts-service/app.py:251-276 | no write when the record is gone; otherwise the record is written back as `processing`, and the engine gets the record's voice (or the default) and the segment-0 cache path |
| Lifecycle.Finish | espeak-tts-service/app.py:278-306 | a returned engine call always writes a terminal record, `completed` exactly when it succeeded and the file exists, with one completed segment of index 0, its audio URL, the media type and the file's size, and every other field of the executor's copy unchanged; otherwise `failed` with "Synthesis failed"; an exception writes `failed` with its message only if the record is still live |
| LifecycleProperties.CreatePreservesPublished | espeak-tts-service/app.py:394-407 | creating a job keeps write-then-publish: no completed record lacks a segment file |
| LifecycleProperties.FinishPreservesPublished | espeak-tts-service/app.py:278-295 | the terminal write keeps write-then-publish, because `completed` is written only after the file exists |
| LifecycleProperties.RunPreservesPublished | espeak-tts-service/app.py:251-306 | a whole executor run keeps write-then-publish, whatever files the engine added |
| LifecycleProperties.OtherJobsFilesSurvive | espeak-tts-service/app.py:523-527 | deleting one job never unlinks a file another stored job lists |
| LifecycleProperties.DeletePreservesPublished | espeak-tts-service/app.py:512-533 | deleting a job keeps write-then-publish for every other job |
| LifecycleProperties.CompletedAudioIsServed | espeak-tts-service/app.py:447-476 | while the invariant holds, every segment a live completed job lists is served |
| LifecycleProperties.DeleteIsFinal | espeak-tts-service/app.py:512-533 | after a delete, status, segment audio and a second delete all answer 404, and the job's files are gone |
| LifecycleProperties.DeletedInFlightIsRecreated | espeak-tts-service/app.py:278-295 | a job deleted between the `processing` write and the engine's return reads as absent, and is then present again with a terminal status |
| LifecycleProperties.RaisedAfterDeleteWritesNothing | espeak-tts-service/app.py:297-306 | on the exception path a deleted job stays deleted |
| Espeak.Command | espeak-tts-service/app.py:187-217 | `espeak-ng -v voice -s speed -w path` then `--ipa` and the phonemes exactly when phonemes were preferred and the conversion returned a non-empty string, else the text |
| Espeak.PhonemeFallback | espeak-tts-service/app.py:190-199 | a failed or empty phoneme conversion gives the same command as not preferring phonemes |
| Espeak.RunJob | espeak-tts-service/app.py:241-306 | no write when the record is gone; otherwise `processing` then one terminal write (always when nothing raised, or within the expiry window); `completed` exactly when the exit code was 0 and the output file is non-empty; the terminal record is the `processing` record with only its status and segments, or its status and error, changed; the subprocess gets exactly the command for the stored voice (or the default), the segment-0 path and the task's text or phonemes; the store changes only by those writes to this job's key, and the files only by what the subprocess left at the output path |
| Espeak.RunJobPreservesPublished | espeak-tts-service/app.py:241-306 | an eSpeak run keeps write-then-publish |
| Espeak.GetJobAudio | espeak-tts-service/app.py:479-509 | 404, 400, then 404 "No segments found", then 404 "Audio file not found" when the first segment's file is missing; otherwise the first segment's file named after the job |
| Espeak.CompletedJobAudioIsServed | espeak-tts-service/app.py:479-509 | under write-then-publish a completed job with a segment serves its audio |
| Espeak.VoiceOfLine | espeak-tts-service/app.py:126-137 | a line gives a voice exactly when it has four or more whitespace-separated fields: the fourth is the name and id, the second the language |
| Espeak.AvailableVoices | espeak-tts-service/app.py:106-142 | a non-zero exit, a timeout or any other failure gives no voices; exit code 0 gives the parse of the printed output |
| Espeak.AvailableVoicesOfTable | espeak-tts-service/app.py:106-139 | a run that printed a table lists every row's voice in order when it exited with 0, and none otherwise |
| Espeak.ParseRenderedTable | espeak-tts-service/app.py:122-137 | parsing a printed table (header, one line per voice, trailing newline) returns every voice's name and language in order, skipping exactly the header; rows may carry any number of other-language cells, any indentation, column padding and trailing blanks |
| Espeak.RowLineFields | espeak-tts-service/app.py:126-127 | `split()` of a printed row line, with or without its trailing blanks, gives the row's cells |
| Espeak.VoicesOfFieldLines | espeak-tts-service/app.py:125-137 | lines whose fields are a row's cells yield that row's voice, one per line, in order |
| Text.Strip | espeak-tts-service/app.py:385 | the result is the text with its longest blank prefix and a blank suffix removed; it is empty exactly when the text is all whitespace, and otherwise neither starts nor ends with whitespace |
| Text.StripPadded | espeak-tts-service/app.py:123 | `strip()` of blanks, a string with non-space ends, and blanks gives that string back |
| Text.Fields | espeak-tts-service/app.py:127 | `split()` yields non-empty, whitespace-free fields |
| Text.FieldsOfJoin | espeak-tts-service/app.py:127 | `split()` of words joined by single spaces gives the words back |
| Text.FieldsOfPadded | espeak-tts-service/app.py:127 | `split()` of leading blanks, words separated by non-empty blank runs, and trailing blanks gives exactly the words |
| Text.FieldsOfBlank | espeak-tts-service/app.py:127 | `split()` gives no fields exactly for a blank string |
| Text.SplitOnJoin | espeak-tts-service/app.py:123 | `split('\n')` of lines joined by newlines gives the lines back |
| Text.StripTrailingBlank | espeak-tts-service/app.py:123 | `strip()` ignores trailing whitespace after a non-space character |
| Edge.Milliseconds | edge-tts-service/app.py:147-148 | the millisecond value times 10000 is the tick count |
| Edge.AudioOfEmpty | edge-tts-service/app.py:140-142 | the collected audio list is empty exactly when the stream held no audio chunk |
| Edge.AudioOfAppend | edge-tts-service/app.py:139-142 | audio collected from a stream split in two is the first part's audio followed by the second's |
| Edge.TimingsOfAppend | edge-tts-service/app.py:139-149 | the timings of a stream split in two are the first part's timings followed by the second's |
| Edge.ConcatAppend | edge-tts-service/app.py:152-155 | writing two runs of chunks one after the other gives the two files' contents concatenated |
| Edge.TimingsOfBoundaries | edge-tts-service/app.py:143-149 | one timing per WordBoundary chunk, the k-th from the k-th |
| Edge.OtherChunksIgnored | edge-tts-service/app.py:140-149 | chunks of any other type change neither the audio nor the timings |
| Edge.Collect | edge-tts-service/app.py:138-149 | the collecting loop gathers every audio payload and every converted word marker, in stream order |
| Edge.WriteChunks | edge-tts-service/app.py:152-155 | the file holds the written chunks one after another |
| Edge.SynthesizeWithTiming | edge-tts-service/app.py:123-163 | success exactly when the stream ended normally, at least one audio chunk arrived and neither opening nor writing the file raised; the timings on success, none on failure; the file is left alone when there was no audio or the open raised, and otherwise holds the chunks written |
| Edge.RunJob | edge-tts-service/app.py:315-382 | no write when the record is gone; otherwise `processing` then a terminal write; `completed` exactly when synthesis succeeded, with the audio file, its size and the word timings; the terminal record is the `processing` record with only its status and segments, or its status and error, changed; the store changes only by those writes to this job's key; the files are unchanged after a stream error, no audio or a failed open, hold the whole audio on success and the chunks written before a failed write otherwise, and no other path changes; the invariant is kept |
| Requests.WavSeconds | vastai-tts/worker.py:191-193 | the duration times twice the sample rate is the size minus the 44-byte header |
| QwenWorker.LoadModel | vastai-tts/worker.py:54-78 | a cached model is returned without loading; otherwise a loaded model is cached and a failure leaves the cache empty |
| QwenWorker.LoadModelIdempotent | vastai-tts/worker.py:56-59 | after a successful load, loading again returns the same model and changes nothing |
| QwenWorker.CallOf | vastai-tts/worker.py:181-182 | the language defaults to "English", and voice cloning is used exactly when the voice field is a non-empty string |
| QwenWorker.Process | vastai-tts/worker.py:173-209 | "No text provided" for a missing, null or empty text, before the length check; "Text too long (max N chars)" above the limit; no synthesis in either case; otherwise load errors and generation errors become error results, and success carries the audio at 24000 Hz |
| QwenWorker.WarmWorkerIgnoresLoading | vastai-tts/worker.py:56-59 | with a cached model the answer does not depend on what loading would do |
| QwenWorker.LengthLimitIsInclusive | vastai-tts/worker.py:178-179 | text of exactly the limit reaches synthesis; one character more is rejected |
| BarkWorker.MapVoice | vastai-tts/bark-worker.py:137-145 | empty, absent and "v2/" voices pass unchanged; other names are lower-cased and mapped, falling back to the default |
| BarkWorker.HistoryPrompt | vastai-tts/bark-worker.py:83 | a truthy voice is used as it is; otherwise the default |
| BarkWorker.PresetChoice | vastai-tts/bark-worker.py:137-145 | end to end: no voice gives the default; "v2/" passes through; "male", "female", "narrator" in any ASCII case give speakers 6, 9 and 1; anything else gives the default |
| BarkWorker.PresetIsAlwaysAPreset | vastai-tts/bark-worker.py:32 | when the default is a "v2/" preset, Bark is always given a "v2/" preset |
| BarkWorker.NamesIgnoreCase | vastai-tts/bark-worker.py:145 | names that lower-case alike choose the same preset |
| BarkWorker.LoadBark | vastai-tts/bark-worker.py:37-62 | nothing happens once loaded; otherwise the flag is set exactly when preloading did not raise |
| BarkWorker.LoadBarkIdempotent | vastai-tts/bark-worker.py:39-42 | after a successful load, loading again changes nothing |
| BarkWorker.DoPost | vastai-tts/bark-worker.py:107-186 | 404 for another path; 500 for an unreadable body; 400 "No text provided" and 400 "Text too long" without synthesis; a load or generation exception gives 500 with its message; 200 exactly with a success payload at 24000 Hz |

## Left out

- Redis and the file system are maps. Connections, JSON encoding, the per-service key prefixes and `Path` normalisation are not modelled. Each service has its own store.
- FastAPI routing, startup and shutdown, the lazily created Redis client, and the thread and event-loop wrapper `process_job_sync` are not modelled. A run of the executor is one uninterrupted call to `RunJob`. An interleaving with a client request is modelled by composing `Begin`, the request and `Finish`.
- The engines are inputs: the `espeak-ng` subprocess, the phoneme HTTP call, the Edge network stream, and Qwen and Bark inference and loading. Temporary files for reference audio and base64 decoding and encoding are part of the engine input.
- Job ids (`uuid4`) and `created_at` (`utcnow`) are parameters.
- Floating point is modelled as exact real numbers with no rounding: the tick-to-millisecond division, and the WAV duration. `synthesis_time` is not modelled.
- The `raised` argument of both executors stands for an exception from a store or JSON call after the `processing` write. An exception before that write is not modelled.
- Edge.SynthesizeWithTiming: a write that raises after some chunks leaves those chunks in the file. The model keeps them. A partial file is never published, because the job becomes `failed`.
- The Edge module's `process_job` and `synthesize_text` are not modelled, because `create_job` never schedules them.
- `fix_app.py` is a one-off patch script for a file outside this system, and is not modelled.
- The health endpoints, the voice-list endpoints and the standalone `HTTPServer` harnesses are not modelled. Only the parsing half of `get_available_voices` is modelled, with the subprocess result as input.
- Request fields that are JSON values other than strings or `null` are not modelled.
- Text.LowerAscii: only ASCII letters are lower-cased. For the three voice names the workers compare against, this agrees with Python's full `str.lower()`.
- Espeak.ParseVoices: there is no separate contract for arbitrary `espeak-ng` output. The property proved is the round trip over printed tables, in `Espeak.ParseRenderedTable`. Its tables have a header that neither starts nor ends with whitespace and rows of at least five non-blank cells; blank lines between rows are not covered.
- Edge.TimingsOf: its own contract is only a length bound. The exact content is stated by `Edge.TimingsOfBoundaries`, `Edge.OtherChunksIgnored` and `Edge.Collect`.
