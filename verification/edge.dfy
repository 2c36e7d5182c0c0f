/**
 The Edge-TTS service: the shared lifecycle over `.mp3` files, with no
 `prefer_phonemes` in the record, and a timed synthesis step that collects
 the stream's audio chunks and WordBoundary markers and writes the audio out
 only when at least one audio chunk arrived.
 */
module Edge {

  import opened Wrappers
  import opened Text
  import opened Naming
  import opened JobStore
  import opened Lifecycle
  import LifecycleProperties

  /** The environment-driven settings `EDGE_TTS_CACHE_DIR` and
      `EDGE_TTS_DEFAULT_VOICE`. */
  datatype Config = Config(cacheDir: string, defaultVoice: string)

  const DefaultConfig := Config("/data/cache", "en-US-AriaNeural")

  function Svc(cfg: Config): Service {
    Service(cfg.cacheDir, cfg.defaultVoice, ".mp3", "audio/mpeg", false)
  }

  /** `create_job` of this service: the shared checks; the phoneme
      preference is accepted and ignored, and the record has no field for it. */
  function CreateJob(cfg: Config, store: Store, req: CreateRequest, jobId: string, createdAt: string, now: int)
    : (r: CreateResult)
    ensures r.reply.Err? <==> IsBlank(req.text)
    ensures r.reply.Err? ==> r.store == store && r.task.None?
    ensures r.reply.Ok? ==>
      && Get(r.store, jobId, now).Some?
      && var job := Get(r.store, jobId, now).value;
      && job.status == Pending && job.segments == [] && job.textLength == |req.text|
      && job.preferPhonemes.None?
      && job.voice == Some(ResolveVoice(req.voice, req.modelId, cfg.defaultVoice))
      && r.task.Some? && job.voice == Some(r.task.value.voice)
  {
    Create(Svc(cfg), store, req, jobId, createdAt, now)
  }

  // ------------------------------------------------------------ the stream

  /** One item of `communicate.stream()`. Offsets and durations are in the
      stream's 100-nanosecond ticks. */
  datatype Chunk =
    | Audio(data: seq<byte>)
    | WordBoundary(text: string, offset: int, duration: int)
    | Other(kind: string)

  /** What the stream delivered: the chunks in order, and the message of the
      exception that ended it early, if one did (an exception from the
      `Communicate` constructor is a stream with no chunks and an error). */
  datatype Stream = Stream(chunks: seq<Chunk>, error: Option<string>)

  /** Whether writing the collected audio raised: opening the output file
      for writing, or a write after some number of chunks had been written. */
  datatype WriteFault = NoFault | OpenFails | FailsAfter(written: nat)

  /** Ticks of 100 ns to milliseconds (`/ 10000`), as an exact quotient. */
  function Milliseconds(ticks: int): (ms: real)
    ensures ms * 10000.0 == ticks as real
    ensures (ticks < 0) == (ms < 0.0)
  {
    ticks as real / 10000.0
  }

  /** The payload of an audio chunk; nothing for any other chunk. */
  function AudioPart(chunk: Chunk): seq<seq<byte>> {
    if chunk.Audio? then [chunk.data] else []
  }

  /** The audio chunks' payloads, in stream order. */
  function AudioOf(chunks: seq<Chunk>): (r: seq<seq<byte>>)
    ensures |r| <= |chunks|
  {
    if chunks == [] then [] else AudioPart(chunks[0]) + AudioOf(chunks[1..])
  }

  function TimingOf(chunk: Chunk): WordTiming
    requires chunk.WordBoundary?
  {
    WordTiming(chunk.text, Milliseconds(chunk.offset), Milliseconds(chunk.duration))
  }

  /** The timing of a WordBoundary chunk; nothing for any other chunk. */
  function TimingPart(chunk: Chunk): seq<WordTiming> {
    if chunk.WordBoundary? then [TimingOf(chunk)] else []
  }

  /** One timing per WordBoundary chunk, in stream order. */
  function TimingsOf(chunks: seq<Chunk>): (r: seq<WordTiming>)
    ensures |r| <= |chunks|
  {
    if chunks == [] then [] else TimingPart(chunks[0]) + TimingsOf(chunks[1..])
  }

  /** The bytes of several chunks written one after another. */
  function Concat(parts: seq<seq<byte>>): (r: seq<byte>)
  {
    if parts == [] then [] else parts[0] + Concat(parts[1..])
  }

  /** No audio is collected exactly when the stream held no audio chunk. */
  lemma {:induction false} AudioOfEmpty(chunks: seq<Chunk>)
    ensures AudioOf(chunks) == [] <==> forall i :: 0 <= i < |chunks| ==> !chunks[i].Audio?
  {
    if chunks != [] {
      AudioOfEmpty(chunks[1..]);
      if !chunks[0].Audio? {
        forall i | 1 <= i < |chunks| ensures chunks[i] == chunks[1..][i - 1] { }
      }
    }
  }

  lemma {:induction false} AudioOfAppend(a: seq<Chunk>, b: seq<Chunk>)
    ensures AudioOf(a + b) == AudioOf(a) + AudioOf(b)
  {
    if a == [] {
      assert a + b == b;
    } else {
      var ab := a + b;
      assert ab[0] == a[0] && ab[1..] == a[1..] + b;
      AudioOfAppend(a[1..], b);
      calc {
        AudioOf(ab);
        AudioPart(a[0]) + AudioOf(a[1..] + b);
        AudioPart(a[0]) + (AudioOf(a[1..]) + AudioOf(b));
        (AudioPart(a[0]) + AudioOf(a[1..])) + AudioOf(b);
      }
    }
  }

  lemma {:induction false} TimingsOfAppend(a: seq<Chunk>, b: seq<Chunk>)
    ensures TimingsOf(a + b) == TimingsOf(a) + TimingsOf(b)
  {
    if a == [] {
      assert a + b == b;
    } else {
      var ab := a + b;
      assert ab[0] == a[0] && ab[1..] == a[1..] + b;
      TimingsOfAppend(a[1..], b);
      calc {
        TimingsOf(ab);
        TimingPart(a[0]) + TimingsOf(a[1..] + b);
        TimingPart(a[0]) + (TimingsOf(a[1..]) + TimingsOf(b));
        (TimingPart(a[0]) + TimingsOf(a[1..])) + TimingsOf(b);
      }
    }
  }

  lemma {:induction false} ConcatAppend(a: seq<seq<byte>>, b: seq<seq<byte>>)
    ensures Concat(a + b) == Concat(a) + Concat(b)
  {
    if a == [] {
      assert a + b == b;
    } else {
      var ab := a + b;
      assert ab[0] == a[0] && ab[1..] == a[1..] + b;
      ConcatAppend(a[1..], b);
      calc {
        Concat(ab);
        a[0] + Concat(a[1..] + b);
        a[0] + (Concat(a[1..]) + Concat(b));
        (a[0] + Concat(a[1..])) + Concat(b);
      }
    }
  }

  /** Chunks of any other type change neither the audio nor the timings. */
  lemma OtherChunksIgnored(a: seq<Chunk>, kind: string, b: seq<Chunk>)
    ensures AudioOf(a + [Other(kind)] + b) == AudioOf(a + b)
    ensures TimingsOf(a + [Other(kind)] + b) == TimingsOf(a + b)
  {
    var other := [Other(kind)];
    assert AudioOf(other) == [] && TimingsOf(other) == [] by {
      assert other[1..] == [];
    }
    calc {
      AudioOf(a + other + b);
      { AudioOfAppend(a + other, b); }
      AudioOf(a + other) + AudioOf(b);
      { AudioOfAppend(a, other); }
      AudioOf(a) + AudioOf(b);
      { AudioOfAppend(a, b); }
      AudioOf(a + b);
    }
    calc {
      TimingsOf(a + other + b);
      { TimingsOfAppend(a + other, b); }
      TimingsOf(a + other) + TimingsOf(b);
      { TimingsOfAppend(a, other); }
      TimingsOf(a) + TimingsOf(b);
      { TimingsOfAppend(a, b); }
      TimingsOf(a + b);
    }
  }

  /** The timings are exactly the stream's word markers, converted, and
      nothing else: the k-th timing comes from the k-th WordBoundary chunk. */
  lemma {:induction false} TimingsOfBoundaries(words: seq<Chunk>)
    requires forall i :: 0 <= i < |words| ==> words[i].WordBoundary?
    ensures |TimingsOf(words)| == |words|
    ensures forall i :: 0 <= i < |words| ==> TimingsOf(words)[i] == TimingOf(words[i])
  {
    if words != [] {
      TimingsOfBoundaries(words[1..]);
    }
  }

  function Min(a: nat, b: nat): nat {
    if a <= b then a else b
  }

  /** The collecting loop: every audio payload and every converted word
      marker, in stream order. */
  method Collect(chunks: seq<Chunk>) returns (audio: seq<seq<byte>>, timings: seq<WordTiming>)
    ensures audio == AudioOf(chunks)
    ensures timings == TimingsOf(chunks)
  {
    audio, timings := [], [];
    var i := 0;
    while i < |chunks|
      invariant 0 <= i <= |chunks|
      invariant audio == AudioOf(chunks[..i])
      invariant timings == TimingsOf(chunks[..i])
    {
      var one := [chunks[i]];
      assert chunks[..i + 1] == chunks[..i] + one;
      assert AudioOf(one) == AudioPart(chunks[i]) && TimingsOf(one) == TimingPart(chunks[i]);
      AudioOfAppend(chunks[..i], one);
      TimingsOfAppend(chunks[..i], one);
      match chunks[i] {
        case Audio(data) =>
          audio := audio + [data];
        case WordBoundary(text, offset, duration) =>
          timings := timings + [WordTiming(text, Milliseconds(offset), Milliseconds(duration))];
        case Other(_) =>
      }
      i := i + 1;
    }
    assert chunks[..i] == chunks;
  }

  /** The writing loop: the first `count` chunks, one after another. */
  method WriteChunks(audio: seq<seq<byte>>, count: nat) returns (content: seq<byte>)
    requires count <= |audio|
    ensures content == Concat(audio[..count])
  {
    content := [];
    var j := 0;
    while j < count
      invariant 0 <= j <= count
      invariant content == Concat(audio[..j])
    {
      assert audio[..j + 1] == audio[..j] + [audio[j]];
      ConcatAppend(audio[..j], [audio[j]]);
      assert Concat([audio[j]]) == audio[j] + Concat([]);
      content := content + audio[j];
      j := j + 1;
    }
  }

  /** `synthesize_text_with_timing`: collect the stream; if it raised, or no
      audio chunk arrived, fail with no timings and no file; otherwise open
      the output path for writing (truncating it) and write the chunks in
      order. An open that raises leaves the files as they were; a write that
      raises leaves the chunks written so far. Either fails with no timings. */
  method SynthesizeWithTiming(stream: Stream, fault: WriteFault, files: Files, path: string)
    returns (success: bool, timings: seq<WordTiming>, out: Files)
    ensures success <==> stream.error.None? && AudioOf(stream.chunks) != [] && fault.NoFault?
    ensures success ==> timings == TimingsOf(stream.chunks)
    ensures !success ==> timings == []
    ensures success ==> out == files[path := Concat(AudioOf(stream.chunks))]
    ensures stream.error.Some? || AudioOf(stream.chunks) == [] || fault.OpenFails? ==> out == files
    ensures stream.error.None? && AudioOf(stream.chunks) != [] && fault.FailsAfter? ==>
      var audio := AudioOf(stream.chunks);
      out == files[path := Concat(audio[..Min(fault.written, |audio|)])]
  {
    var audio, collected := Collect(stream.chunks);
    if stream.error.Some? || audio == [] || fault.OpenFails? {
      return false, [], files;
    }
    var limit := if fault.FailsAfter? then Min(fault.written, |audio|) else |audio|;
    var content := WriteChunks(audio, limit);
    assert audio[..|audio|] == audio;
    out := files[path := content];
    if fault.FailsAfter? {
      return false, [], out;
    }
    return true, collected, out;
  }

  // ------------------------------------------------------------ executor

  datatype Ran = Ran(sys: Sys, writes: seq<Job>)

  /** One uninterrupted run of `process_job_with_new_redis`, begun at `t1`
      and finished at `t2`. `engine` is the stream the service gets for a
      text and a voice, `fault` whether writing the audio raised, and
      `raised` an exception from the body outside the synthesis call (the
      synthesis call itself never raises). `writes` lists the records the
      executor wrote, in order. */
  method RunJob(
    cfg: Config, sys: Sys, task: Task, engine: (string, string) -> Stream, fault: WriteFault,
    raised: Option<string>, t1: int, t2: int)
    returns (r: Ran)
    requires t1 <= t2
    ensures !Live(sys.store, task.jobId, t1) ==> r == Ran(sys, [])
    ensures Live(sys.store, task.jobId, t1) ==>
      var cur := sys.store[task.jobId].job;
      var stream := engine(task.text, cur.voice.GetOr(cfg.defaultVoice));
      var audio := AudioOf(stream.chunks);
      var path := SegmentPath(Svc(cfg), task.jobId, SegmentId(task.jobId, 0));
      && 1 <= |r.writes| <= 2
      && r.writes[0] == cur.(status := Processing)
      && (raised.None? ==> |r.writes| == 2)
      && (t2 < t1 + JobExpirySeconds ==> |r.writes| == 2)
      && (|r.writes| == 2 ==>
            r.writes[1].status.IsTerminal() && Get(r.sys.store, task.jobId, t2) == Some(r.writes[1]))
      && (|r.writes| == 2 && r.writes[1].status == Completed
          <==> raised.None? && stream.error.None? && audio != [] && fault.NoFault?)
      && (|r.writes| == 2 && r.writes[1].status == Completed ==>
            && path in r.sys.files && r.sys.files[path] == Concat(audio)
            && r.writes[1] == r.writes[0].(status := Completed, segments :=
                 [CompletedSegment(Svc(cfg), task.jobId, |Concat(audio)|, Some(TimingsOf(stream.chunks)))]))
      && (raised.None? && r.writes[1].status == Failed ==>
            r.writes[1] == r.writes[0].(status := Failed, error := Some(SynthesisFailed)))
      && (raised.Some? && |r.writes| == 2 ==>
            r.writes[1] == r.writes[0].(status := Failed, error := Some(raised.value)))
    // Only this job's record and this job's output file change.
    ensures Live(sys.store, task.jobId, t1) ==>
      && (|r.writes| == 1 ==> r.sys.store == Put(sys.store, task.jobId, r.writes[0], t1))
      && (|r.writes| == 2 ==>
            r.sys.store == Put(Put(sys.store, task.jobId, r.writes[0], t1), task.jobId, r.writes[1], t2))
    ensures Live(sys.store, task.jobId, t1) ==>
      var stream := engine(task.text, sys.store[task.jobId].job.voice.GetOr(cfg.defaultVoice));
      var audio := AudioOf(stream.chunks);
      var path := SegmentPath(Svc(cfg), task.jobId, SegmentId(task.jobId, 0));
      && (stream.error.Some? || audio == [] || fault.OpenFails? ==> r.sys.files == sys.files)
      && (stream.error.None? && audio != [] && fault.NoFault? ==>
            r.sys.files == sys.files[path := Concat(audio)])
      && (stream.error.None? && audio != [] && fault.FailsAfter? ==>
            r.sys.files == sys.files[path := Concat(audio[..Min(fault.written, |audio|)])])
      && (forall p :: p != path ==>
            (p in r.sys.files <==> p in sys.files) && (p in sys.files ==> r.sys.files[p] == sys.files[p]))
    ensures Published(Svc(cfg), sys) ==> Published(Svc(cfg), r.sys)
  {
    var begun := Begin(Svc(cfg), sys.store, task, t1);
    if begun.None? {
      return Ran(sys, []);
    }
    r := Proceed(cfg, sys, task, engine, fault, raised, t1, t2);
  }

  /** The part of a run after the `processing` write: stream the synthesis
      of the request `Begin` prepared, then write the terminal record. */
  method Proceed(
    cfg: Config, sys: Sys, task: Task, engine: (string, string) -> Stream, fault: WriteFault,
    raised: Option<string>, t1: int, t2: int)
    returns (r: Ran)
    requires t1 <= t2
    requires Begin(Svc(cfg), sys.store, task, t1).Some?
    ensures var started := Begin(Svc(cfg), sys.store, task, t1).value;
      var stream := engine(started.request.text, started.request.voice);
      var audio := AudioOf(stream.chunks);
      var path := started.request.outputPath;
      && 1 <= |r.writes| <= 2 && r.writes[0] == started.local
      && (|r.writes| == 1 ==> r.sys.store == started.store)
      && (|r.writes| == 2 ==>
            r.sys.store == Put(started.store, task.jobId, r.writes[1], t2) && r.writes[1].status.IsTerminal())
      && (raised.None? ==> |r.writes| == 2)
      && (raised.Some? ==> (|r.writes| == 2 <==> Live(started.store, task.jobId, t2)))
      && (|r.writes| == 2 && r.writes[1].status == Completed
          <==> raised.None? && stream.error.None? && audio != [] && fault.NoFault?)
      && (|r.writes| == 2 && r.writes[1].status == Completed ==>
            r.writes[1] == started.local.(status := Completed, segments :=
              [CompletedSegment(Svc(cfg), task.jobId, |Concat(audio)|, Some(TimingsOf(stream.chunks)))]))
      && (raised.None? && r.writes[1].status == Failed ==>
            r.writes[1] == started.local.(status := Failed, error := Some(SynthesisFailed)))
      && (raised.Some? && |r.writes| == 2 ==>
            r.writes[1] == started.store[task.jobId].job.(status := Failed, error := Some(raised.value)))
    ensures var started := Begin(Svc(cfg), sys.store, task, t1).value;
      var stream := engine(started.request.text, started.request.voice);
      var audio := AudioOf(stream.chunks);
      var path := started.request.outputPath;
      && (stream.error.Some? || audio == [] || fault.OpenFails? ==> r.sys.files == sys.files)
      && (stream.error.None? && audio != [] && fault.NoFault? ==>
            r.sys.files == sys.files[path := Concat(audio)])
      && (stream.error.None? && audio != [] && fault.FailsAfter? ==>
            r.sys.files == sys.files[path := Concat(audio[..Min(fault.written, |audio|)])])
    ensures Published(Svc(cfg), sys) ==> Published(Svc(cfg), r.sys)
  {
    var svc := Svc(cfg);
    var started := Begin(svc, sys.store, task, t1).value;
    var request := started.request;
    var stream := engine(request.text, request.voice);
    var success, timings, files := SynthesizeWithTiming(stream, fault, sys.files, request.outputPath);
    var outcome := if raised.Some? then Raised(raised.value) else Returned(success, Some(timings));
    var finished := Conclude(svc, sys, task, files, outcome, t1, t2);
    r := Ran(Sys(finished.store, files),
             [started.local] + (if finished.written.Some? then [finished.written.value] else []));
  }

  /** The terminal write of a run, which keeps write-then-publish whatever
      files the engine added. */
  method Conclude(svc: Service, sys: Sys, task: Task, files: Files, outcome: Outcome, t1: int, t2: int)
    returns (finished: Finished)
    requires Begin(svc, sys.store, task, t1).Some?
    requires sys.files.Keys <= files.Keys
    ensures var started := Begin(svc, sys.store, task, t1).value;
      finished == Finish(svc, Sys(started.store, files), task.jobId, started.local, outcome, t2)
    ensures Published(svc, sys) ==> Published(svc, Sys(finished.store, files))
  {
    var started := Begin(svc, sys.store, task, t1).value;
    finished := Finish(svc, Sys(started.store, files), task.jobId, started.local, outcome, t2);
    if Published(svc, sys) {
      LifecycleProperties.RunPreservesPublished(svc, sys, task, files, outcome, t1, t2);
    }
  }
}
