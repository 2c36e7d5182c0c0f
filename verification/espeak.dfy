/**
 The eSpeak-NG service: the shared lifecycle over `.wav` files with
 `prefer_phonemes` kept in the record, plus what only this service does —
 building the `espeak-ng` command line (with the `--ipa` fallback), judging
 the subprocess's success, serving a whole job's audio, and parsing the
 `espeak-ng --voices` table.
 */
module Espeak {

  import opened Wrappers
  import opened Text
  import opened Decimal
  import opened Naming
  import opened JobStore
  import opened Lifecycle
  import LifecycleProperties

  /** The environment-driven settings: `ESPEAK_TTS_CACHE_DIR`,
      `ESPEAK_TTS_DEFAULT_VOICE` and `ESPEAK_SPEED`. */
  datatype Config = Config(cacheDir: string, defaultVoice: string, speed: int)

  const DefaultConfig := Config("/data/cache", "en-us", 175)

  function Svc(cfg: Config): Service {
    Service(cfg.cacheDir, cfg.defaultVoice, ".wav", "audio/wav", true)
  }

  /** `create_job` of this service: the shared checks, and the record keeps
      the phoneme preference the executor is also given. */
  function CreateJob(cfg: Config, store: Store, req: CreateRequest, jobId: string, createdAt: string, now: int)
    : (r: CreateResult)
    ensures r.reply.Err? <==> IsBlank(req.text)
    ensures r.reply.Err? ==> r.store == store
    ensures r.reply.Ok? ==>
      && Get(r.store, jobId, now).Some?
      && var job := Get(r.store, jobId, now).value;
      && job.status == Pending && job.segments == [] && job.textLength == |req.text|
      && job.preferPhonemes == Some(req.preferPhonemes == Some(true))
      && r.task.Some? && r.task.value.preferPhonemes == (req.preferPhonemes == Some(true))
      && job.voice == Some(r.task.value.voice)
  {
    Create(Svc(cfg), store, req, jobId, createdAt, now)
  }

  // ------------------------------------------------------------ command

  /** `espeak-ng -v voice -s speed -w path [--ipa] text`: `--ipa` and the
      phoneme string are used exactly when phonemes were preferred and the
      conversion returned a non-empty string; otherwise the text itself is
      spoken. `phonemes` is what the phonemize call returned (None when it
      failed); it is not consulted unless phonemes are preferred. */
  function Command(cfg: Config, voice: string, outputPath: string, text: string, preferPhonemes: bool, phonemes: Option<string>)
    : (argv: seq<string>)
    ensures |argv| == 8 || |argv| == 9
    ensures argv[..7] == ["espeak-ng", "-v", voice, "-s", IntToString(cfg.speed), "-w", outputPath]
    ensures |argv| == 9 <==> preferPhonemes && Truthy(phonemes)
    ensures |argv| == 9 ==> argv[7] == "--ipa" && argv[8] == phonemes.value
    ensures |argv| == 8 ==> argv[7] == text
  {
    var useIpa := preferPhonemes && Truthy(phonemes);
    var spoken := if useIpa then phonemes.value else text;
    ["espeak-ng", "-v", voice, "-s", IntToString(cfg.speed), "-w", outputPath]
      + (if useIpa then ["--ipa"] else [])
      + [spoken]
  }

  /** A failed or empty phoneme conversion falls back to the text: the
      command is the one built when phonemes were not preferred at all. */
  lemma PhonemeFallback(cfg: Config, voice: string, outputPath: string, text: string, phonemes: Option<string>, other: Option<string>)
    requires !Truthy(phonemes)
    ensures Command(cfg, voice, outputPath, text, true, phonemes) == Command(cfg, voice, outputPath, text, false, other)
  {
  }

  /** How the `espeak-ng` subprocess ended. */
  datatype Run = Exited(code: int) | TimedOut | Crashed(message: string)

  /** `synthesize_text`'s verdict: exit code 0 and a non-empty output file. */
  predicate Succeeded(run: Run, files: Files, outputPath: string) {
    run == Exited(0) && outputPath in files && |files[outputPath]| > 0
  }

  // ------------------------------------------------------------ executor

  datatype RunResult = RunResult(sys: Sys, writes: seq<Job>, argv: Option<seq<string>>)

  /** One uninterrupted run of `process_job_with_new_redis`, begun at `t1`
      and finished at `t2`. The engine's behaviour is an input: what the
      phonemize call returned, how the subprocess ended, what it left at the
      output path, and whether the body raised. `writes` lists the records
      the executor wrote, in order. */
  function RunJob(
    cfg: Config, sys: Sys, task: Task, phonemes: Option<string>, run: Run,
    output: Option<seq<byte>>, raised: Option<string>, t1: int, t2: int)
    : (r: RunResult)
    requires t1 <= t2
    ensures !Live(sys.store, task.jobId, t1) ==> r == RunResult(sys, [], None)
    ensures Live(sys.store, task.jobId, t1) ==>
      var cur := sys.store[task.jobId].job;
      var path := SegmentPath(Svc(cfg), task.jobId, SegmentId(task.jobId, 0));
      && 1 <= |r.writes| <= 2
      && r.writes[0] == cur.(status := Processing)
      && (raised.None? ==> |r.writes| == 2)
      && (t2 < t1 + JobExpirySeconds ==> |r.writes| == 2)
      && (|r.writes| == 2 ==>
            r.writes[1].status.IsTerminal() && Get(r.sys.store, task.jobId, t2) == Some(r.writes[1]))
      && r.argv.Some? && |r.argv.value| >= 8 && r.argv.value[2] == cur.voice.GetOr(cfg.defaultVoice)
      && r.argv.value[6] == path
      && (|r.writes| == 2 && r.writes[1].status == Completed
          <==> raised.None? && Succeeded(run, r.sys.files, path))
      && (|r.writes| == 2 && r.writes[1].status == Completed ==>
            r.writes[1] == r.writes[0].(status := Completed, segments :=
              [CompletedSegment(Svc(cfg), task.jobId, |r.sys.files[path]|, None)]))
      && (raised.None? && r.writes[1].status == Failed ==>
            r.writes[1] == r.writes[0].(status := Failed, error := Some(SynthesisFailed)))
      && (raised.Some? && |r.writes| == 2 ==>
            r.writes[1] == r.writes[0].(status := Failed, error := Some(raised.value)))
    // The subprocess gets the command for the stored voice and the task's text.
    ensures Live(sys.store, task.jobId, t1) ==>
      var cur := sys.store[task.jobId].job;
      var path := SegmentPath(Svc(cfg), task.jobId, SegmentId(task.jobId, 0));
      r.argv == Some(Command(cfg, cur.voice.GetOr(cfg.defaultVoice), path, task.text, task.preferPhonemes, phonemes))
    // Only this job's record and this job's output file change, and the file
    // holds what the subprocess left there.
    ensures Live(sys.store, task.jobId, t1) ==>
      && (|r.writes| == 1 ==> r.sys.store == Put(sys.store, task.jobId, r.writes[0], t1))
      && (|r.writes| == 2 ==>
            r.sys.store == Put(Put(sys.store, task.jobId, r.writes[0], t1), task.jobId, r.writes[1], t2))
    ensures Live(sys.store, task.jobId, t1) ==>
      var path := SegmentPath(Svc(cfg), task.jobId, SegmentId(task.jobId, 0));
      && (output.None? ==> r.sys.files == sys.files)
      && (output.Some? ==> r.sys.files == sys.files[path := output.value])
  {
    match Begin(Svc(cfg), sys.store, task, t1)
    case None => RunResult(sys, [], None)
    case Some(started) =>
      Proceed(cfg, Sys(started.store, sys.files), task.jobId, started.local, started.request,
              phonemes, run, output, raised, t2)
  }

  /** The part of a run after the `processing` write: run the subprocess on
      `request`, then write the terminal record. */
  function Proceed(
    cfg: Config, sys: Sys, jobId: string, local: Job, request: SynthRequest,
    phonemes: Option<string>, run: Run, output: Option<seq<byte>>, raised: Option<string>, t2: int)
    : (r: RunResult)
    requires request.outputPath == SegmentPath(Svc(cfg), jobId, SegmentId(jobId, 0))
    ensures r.argv == Some(Command(cfg, request.voice, request.outputPath, request.text, request.preferPhonemes, phonemes))
    ensures output.None? ==> r.sys.files == sys.files
    ensures output.Some? ==> r.sys.files == sys.files[request.outputPath := output.value]
    ensures 1 <= |r.writes| <= 2 && r.writes[0] == local
    ensures |r.writes| == 1 ==> r.sys.store == sys.store
    ensures |r.writes| == 2 ==>
      r.sys.store == Put(sys.store, jobId, r.writes[1], t2) && r.writes[1].status.IsTerminal()
    ensures raised.None? ==> |r.writes| == 2
    ensures raised.Some? ==> (|r.writes| == 2 <==> Live(sys.store, jobId, t2))
    ensures |r.writes| == 2 && r.writes[1].status == Completed
      <==> raised.None? && Succeeded(run, r.sys.files, request.outputPath)
    ensures |r.writes| == 2 && r.writes[1].status == Completed ==>
      r.writes[1] == local.(status := Completed, segments :=
        [CompletedSegment(Svc(cfg), jobId, |r.sys.files[request.outputPath]|, None)])
    ensures raised.None? && r.writes[1].status == Failed ==>
      r.writes[1] == local.(status := Failed, error := Some(SynthesisFailed))
    ensures raised.Some? && |r.writes| == 2 ==>
      r.writes[1] == sys.store[jobId].job.(status := Failed, error := Some(raised.value))
  {
    var path := request.outputPath;
    var argv := Command(cfg, request.voice, path, request.text, request.preferPhonemes, phonemes);
    var files := WriteOutput(sys.files, path, output);
    var outcome := if raised.Some? then Raised(raised.value) else Returned(Succeeded(run, files, path), None);
    var finished := Finish(Svc(cfg), Sys(sys.store, files), jobId, local, outcome, t2);
    var writes := [local] + (if finished.written.Some? then [finished.written.value] else []);
    RunResult(Sys(finished.store, files), writes, Some(argv))
  }

  /** A run never breaks write-then-publish. */
  lemma RunJobPreservesPublished(
    cfg: Config, sys: Sys, task: Task, phonemes: Option<string>, run: Run,
    output: Option<seq<byte>>, raised: Option<string>, t1: int, t2: int)
    requires t1 <= t2
    requires Published(Svc(cfg), sys)
    ensures Published(Svc(cfg), RunJob(cfg, sys, task, phonemes, run, output, raised, t1, t2).sys)
  {
    var svc := Svc(cfg);
    var begun := Begin(svc, sys.store, task, t1);
    if begun.Some? {
      var path := begun.value.request.outputPath;
      var files := WriteOutput(sys.files, path, output);
      var outcome := if raised.Some? then Raised(raised.value) else Returned(Succeeded(run, files, path), None);
      LifecycleProperties.RunPreservesPublished(svc, sys, task, files, outcome, t1, t2);
    }
  }

  // ------------------------------------------------------------ job audio

  const NoSegments := HttpError(404, "No segments found")

  /** `get_job_audio`: like segment audio, but for the job's first segment,
      with 404 when the record lists no segment, and the file named after the
      job. */
  function GetJobAudio(cfg: Config, sys: Sys, jobId: string, now: int): (r: Reply<FileResponse>)
    ensures !Live(sys.store, jobId, now) <==> r == Err(JobNotFound)
    ensures Live(sys.store, jobId, now) ==>
      var job := sys.store[jobId].job;
      && (job.status != Completed ==> r == Err(NotCompleted(job.status)))
      && (job.status == Completed && job.segments == [] ==> r == Err(NoSegments))
      && (job.status == Completed && job.segments != [] ==>
            var path := SegmentPath(Svc(cfg), jobId, job.segments[0].id);
            path !in sys.files ==> r == Err(AudioFileNotFound))
      && (r.Ok? <==> job.status == Completed && job.segments != []
                     && SegmentPath(Svc(cfg), jobId, job.segments[0].id) in sys.files)
      && (r.Ok? ==> r.value == FileResponse(
            SegmentPath(Svc(cfg), jobId, job.segments[0].id), "audio/wav", jobId + ".wav"))
  {
    match Get(sys.store, jobId, now)
    case None => Err(JobNotFound)
    case Some(job) =>
      if job.status != Completed then Err(NotCompleted(job.status))
      else if job.segments == [] then Err(NoSegments)
      else
        var path := SegmentPath(Svc(cfg), jobId, job.segments[0].id);
        if path !in sys.files then Err(AudioFileNotFound)
        else Ok(FileResponse(path, "audio/wav", jobId + ".wav"))
  }

  /** Under write-then-publish, a completed job with a segment serves its audio. */
  lemma CompletedJobAudioIsServed(cfg: Config, sys: Sys, jobId: string, now: int)
    requires Published(Svc(cfg), sys)
    requires Live(sys.store, jobId, now)
    requires sys.store[jobId].job.status == Completed && sys.store[jobId].job.segments != []
    ensures GetJobAudio(cfg, sys, jobId, now).Ok?
  {
    assert FilesPublished(Svc(cfg), jobId, sys.store[jobId].job, sys.files);
  }

  // ------------------------------------------------------------ voices

  datatype VoiceInfo = VoiceInfo(id: string, name: string, language: string)

  /** The voice a table line describes, when it has at least four fields:
      the language is the second field and the voice name the fourth. */
  function VoiceOfLine(line: string): (r: Option<VoiceInfo>)
    ensures r.Some? <==> |Fields(line)| >= 4
    ensures r.Some? ==> r.value == VoiceInfo(Fields(line)[3], Fields(line)[3], Fields(line)[1])
  {
    var parts := Fields(line);
    if |parts| >= 4 then Some(VoiceInfo(parts[3], parts[3], parts[1])) else None
  }

  function VoicesOfLines(lines: seq<string>): (r: seq<VoiceInfo>)
    ensures |r| <= |lines|
  {
    if lines == [] then []
    else
      (match VoiceOfLine(lines[0]) case Some(v) => [v] case None => [])
      + VoicesOfLines(lines[1..])
  }

  /** The parsing half of `get_available_voices`: strip the output, split it
      into lines, skip the header and keep every line with four or more
      fields. */
  function ParseVoices(stdout: string): seq<VoiceInfo> {
    VoicesOfLines(SplitOn(Strip(stdout), '\n')[1..])
  }

  /** How `espeak-ng --voices` ended. */
  datatype VoicesRun = VoicesExited(code: int, stdout: string) | VoicesFailed

  /** `get_available_voices`: a non-zero exit, a timeout or any other error
      gives an empty list. */
  function AvailableVoices(run: VoicesRun): (r: seq<VoiceInfo>)
    ensures (run.VoicesFailed? || run.code != 0) ==> r == []
    ensures run.VoicesExited? && run.code == 0 ==> r == ParseVoices(run.stdout)
  {
    match run
    case VoicesFailed => []
    case VoicesExited(code, stdout) => if code != 0 then [] else ParseVoices(stdout)
  }

  /** One row of the table as `espeak-ng --voices` prints it: priority,
      language, age/gender, voice name, file, and the other languages the
      voice speaks (zero or more cells). */
  datatype VoiceRow = VoiceRow(
    priority: string, language: string, gender: string, name: string, file: string,
    others: seq<string>)

  function RowFields(row: VoiceRow): (r: seq<string>)
    ensures |r| >= 5 && r[1] == row.language && r[3] == row.name
  {
    [row.priority, row.language, row.gender, row.name, row.file] + row.others
  }

  /** A printable table cell: non-empty and free of whitespace. */
  predicate IsWord(s: string) {
    s != [] && NoSpace(s)
  }

  predicate WellFormedRow(row: VoiceRow) {
    forall i :: 0 <= i < |RowFields(row)| ==> IsWord(RowFields(row)[i])
  }

  /** Whitespace within one line. */
  predicate Padding(s: string) {
    IsBlank(s) && '\n' !in s
  }

  /** Where a row's cells sit on its line: the indentation before the first
      cell, the run of blanks after each cell but the last (columns are
      padded to a width), and the blanks at the end of the line. */
  datatype Layout = Layout(indent: string, gaps: seq<string>, trail: string)

  predicate FitsRow(layout: Layout, row: VoiceRow) {
    && Padding(layout.indent) && Padding(layout.trail)
    && |layout.gaps| == |RowFields(row)| - 1
    && forall i :: 0 <= i < |layout.gaps| ==> layout.gaps[i] != [] && Padding(layout.gaps[i])
  }

  /** The printed line of a row, without its trailing blanks. */
  function RowCore(row: VoiceRow, layout: Layout): string
    requires FitsRow(layout, row)
  {
    layout.indent + Interleave(RowFields(row), layout.gaps)
  }

  function RowLine(row: VoiceRow, layout: Layout): string
    requires FitsRow(layout, row)
  {
    RowCore(row, layout) + layout.trail
  }

  /** The table's first line names the columns; any single line that does
      not start or end in whitespace will do, as the parser skips it unread. */
  predicate IsHeader(header: string) {
    header != [] && '\n' !in header && !IsSpace(header[0]) && !IsSpace(header[|header| - 1])
  }

  predicate Printable(rows: seq<VoiceRow>, layouts: seq<Layout>) {
    && |layouts| == |rows|
    && forall i :: 0 <= i < |rows| ==> WellFormedRow(rows[i]) && FitsRow(layouts[i], rows[i])
  }

  function RenderRows(rows: seq<VoiceRow>, layouts: seq<Layout>): (r: seq<string>)
    requires Printable(rows, layouts)
    ensures |r| == |rows|
    ensures forall i :: 0 <= i < |rows| ==> r[i] == RowLine(rows[i], layouts[i])
  {
    if rows == [] then []
    else [RowLine(rows[0], layouts[0])] + RenderRows(rows[1..], layouts[1..])
  }

  /** The table text: header, one line per row, and a trailing newline. */
  function RenderTable(header: string, rows: seq<VoiceRow>, layouts: seq<Layout>): string
    requires Printable(rows, layouts)
  {
    JoinWith([header] + RenderRows(rows, layouts), "\n") + "\n"
  }

  function InfoOfRow(row: VoiceRow): VoiceInfo {
    VoiceInfo(row.name, row.name, row.language)
  }

  /** The table's lines once `strip` has taken the final newline and the
      last row's trailing blanks. */
  function StrippedLines(header: string, rows: seq<VoiceRow>, layouts: seq<Layout>): (r: seq<string>)
    requires Printable(rows, layouts) && rows != []
    ensures |r| == |rows| + 1 && r[0] == header
  {
    var n := |rows| - 1;
    [header] + RenderRows(rows, layouts)[..n] + [RowCore(rows[n], layouts[n])]
  }

  /** Parsing a printed table recovers every row's voice name and language,
      in order, whatever the column padding, the indentation and the number
      of other-language cells: the header is skipped and nothing else is. */
  lemma ParseRenderedTable(header: string, rows: seq<VoiceRow>, layouts: seq<Layout>)
    requires IsHeader(header)
    requires Printable(rows, layouts)
    ensures |ParseVoices(RenderTable(header, rows, layouts))| == |rows|
    ensures forall i :: 0 <= i < |rows| ==>
      ParseVoices(RenderTable(header, rows, layouts))[i] == InfoOfRow(rows[i])
  {
    if rows == [] {
      assert [header] + RenderRows(rows, layouts) == [header];
      StripTrailingBlank(header, "\n");
      SplitOnJoin([header], '\n');
    } else {
      var stripped := StrippedLines(header, rows, layouts);
      StripRenderedTable(header, rows, layouts);
      StrippedTableShape(header, rows, layouts);
      SplitOnJoin(stripped, '\n');
      assert ParseVoices(RenderTable(header, rows, layouts)) == VoicesOfLines(stripped[1..]);
      StrippedRowFields(header, rows, layouts);
    }
  }

  /** A successful `espeak-ng --voices` run that printed a table lists every
      row's voice, in order; a failed one lists none. */
  lemma AvailableVoicesOfTable(header: string, rows: seq<VoiceRow>, layouts: seq<Layout>, code: int)
    requires IsHeader(header)
    requires Printable(rows, layouts)
    ensures var voices := AvailableVoices(VoicesExited(code, RenderTable(header, rows, layouts)));
      && (code == 0 ==> |voices| == |rows| && forall i :: 0 <= i < |rows| ==> voices[i] == InfoOfRow(rows[i]))
      && (code != 0 ==> voices == [])
  {
    ParseRenderedTable(header, rows, layouts);
  }

  /** `strip` of a table with rows leaves exactly the stripped lines joined. */
  lemma StripRenderedTable(header: string, rows: seq<VoiceRow>, layouts: seq<Layout>)
    requires IsHeader(header)
    requires Printable(rows, layouts) && rows != []
    ensures Strip(RenderTable(header, rows, layouts)) == JoinWith(StrippedLines(header, rows, layouts), "\n")
  {
    var n := |rows| - 1;
    var init := [header] + RenderRows(rows, layouts)[..n];
    LeadingLinesNonEmpty(header, rows, layouts);
    LastLineSplit(header, rows, layouts);
    RowLineEnds(rows[n], layouts[n]);
    StripJoinedLines(init, RowCore(rows[n], layouts[n]), layouts[n].trail);
  }

  /** The header and every row line but the last are non-empty. */
  lemma LeadingLinesNonEmpty(header: string, rows: seq<VoiceRow>, layouts: seq<Layout>)
    requires IsHeader(header)
    requires Printable(rows, layouts) && rows != []
    ensures var init := [header] + RenderRows(rows, layouts)[..|rows| - 1];
      forall i :: 0 <= i < |init| ==> init[i] != []
  {
    var rendered := RenderRows(rows, layouts);
    var init := [header] + rendered[..|rows| - 1];
    RenderedRowsShape(rows, layouts);
    forall i | 0 < i < |init| ensures init[i] != [] {
      assert init[i] == rendered[i - 1];
    }
  }

  /** The table's lines are the leading ones, then the last row's core and
      its trailing blanks. */
  lemma LastLineSplit(header: string, rows: seq<VoiceRow>, layouts: seq<Layout>)
    requires Printable(rows, layouts) && rows != []
    ensures var n := |rows| - 1;
      var rendered := RenderRows(rows, layouts);
      [header] + rendered == [header] + rendered[..n] + [RowCore(rows[n], layouts[n]) + layouts[n].trail]
  {
    var n := |rows| - 1;
    var rendered := RenderRows(rows, layouts);
    assert rendered[n] == RowLine(rows[n], layouts[n]);
    SplitLast(rendered);
  }

  lemma SplitLast<T>(s: seq<T>)
    requires s != []
    ensures s == s[..|s| - 1] + [s[|s| - 1]]
  {
  }

  lemma TailOfLines<T>(h: T, a: seq<T>, c: T)
    ensures ([h] + a + [c])[1..] == a + [c]
  {
  }

  /** The stripped table's lines carry no newline, and joined they start and
      end with a non-space. */
  lemma StrippedTableShape(header: string, rows: seq<VoiceRow>, layouts: seq<Layout>)
    requires IsHeader(header)
    requires Printable(rows, layouts) && rows != []
    ensures var stripped := StrippedLines(header, rows, layouts);
      var body := JoinWith(stripped, "\n");
      && (forall i :: 0 <= i < |stripped| ==> '\n' !in stripped[i])
      && body != [] && !IsSpace(body[0]) && !IsSpace(body[|body| - 1])
  {
    var n := |rows| - 1;
    var stripped := StrippedLines(header, rows, layouts);
    var rendered := RenderRows(rows, layouts);
    RenderedRowsShape(rows, layouts);
    RowLineEnds(rows[n], layouts[n]);
    forall i | 0 < i < n + 1 ensures stripped[i] != [] && '\n' !in stripped[i] {
      assert stripped[i] == rendered[i - 1];
    }
    JoinWithEnds(stripped, "\n");
  }

  /** Every printed row line is non-empty and free of newlines. */
  lemma RenderedRowsShape(rows: seq<VoiceRow>, layouts: seq<Layout>)
    requires Printable(rows, layouts)
    ensures forall i :: 0 <= i < |rows| ==>
      RenderRows(rows, layouts)[i] != [] && '\n' !in RenderRows(rows, layouts)[i]
  {
    forall i | 0 <= i < |rows|
      ensures RenderRows(rows, layouts)[i] != [] && '\n' !in RenderRows(rows, layouts)[i]
    {
      RowLineEnds(rows[i], layouts[i]);
    }
  }

  /** A row's line holds no newline, and its core is non-empty and ends with
      the last cell's last character. */
  lemma RowLineEnds(row: VoiceRow, layout: Layout)
    requires WellFormedRow(row) && FitsRow(layout, row)
    ensures var core := RowCore(row, layout);
      && core != [] && '\n' !in core && '\n' !in RowLine(row, layout)
      && !IsSpace(core[|core| - 1])
  {
    var fields := RowFields(row);
    forall i | 0 <= i < |fields| ensures fields[i] != [] && '\n' !in fields[i] {
      assert IsWord(fields[i]);
      NoSpaceHasNoNewline(fields[i]);
    }
    InterleaveShape(fields, layout.gaps, '\n');
    var core := RowCore(row, layout);
    var mid := Interleave(fields, layout.gaps);
    assert core[|core| - 1] == mid[|mid| - 1];
    assert IsWord(fields[|fields| - 1]);
  }

  /** `split()` of a row's line, with or without its trailing blanks, gives
      the row's cells. */
  lemma RowLineFields(row: VoiceRow, layout: Layout)
    requires WellFormedRow(row) && FitsRow(layout, row)
    ensures Fields(RowCore(row, layout)) == RowFields(row)
    ensures Fields(RowLine(row, layout)) == RowFields(row)
  {
    var fields := RowFields(row);
    forall i | 0 <= i < |fields| ensures fields[i] != [] && NoSpace(fields[i]) {
      assert IsWord(fields[i]);
    }
    var mid := Interleave(fields, layout.gaps);
    FieldsOfPadded(layout.indent, fields, layout.gaps, []);
    assert layout.indent + mid + [] == RowCore(row, layout);
    FieldsOfPadded(layout.indent, fields, layout.gaps, layout.trail);
  }

  /** Every line after the header of the stripped table gives its row. */
  lemma StrippedRowFields(header: string, rows: seq<VoiceRow>, layouts: seq<Layout>)
    requires Printable(rows, layouts) && rows != []
    ensures var lines := StrippedLines(header, rows, layouts)[1..];
      |VoicesOfLines(lines)| == |rows|
      && forall i :: 0 <= i < |rows| ==> VoicesOfLines(lines)[i] == InfoOfRow(rows[i])
  {
    var n := |rows| - 1;
    var lines := StrippedLines(header, rows, layouts)[1..];
    TailOfLines(header, RenderRows(rows, layouts)[..n], RowCore(rows[n], layouts[n]));
    forall i | 0 <= i < |lines| ensures Fields(lines[i]) == RowFields(rows[i]) {
      RowLineFields(rows[i], layouts[i]);
    }
    VoicesOfFieldLines(lines, rows);
  }

  /** Lines whose fields are the rows' cells give the rows' voices. */
  lemma {:induction false} VoicesOfFieldLines(lines: seq<string>, rows: seq<VoiceRow>)
    requires |lines| == |rows|
    requires forall i :: 0 <= i < |lines| ==> Fields(lines[i]) == RowFields(rows[i])
    ensures |VoicesOfLines(lines)| == |rows|
    ensures forall i :: 0 <= i < |rows| ==> VoicesOfLines(lines)[i] == InfoOfRow(rows[i])
  {
    if lines != [] {
      assert VoiceOfLine(lines[0]) == Some(InfoOfRow(rows[0]));
      VoicesOfFieldLines(lines[1..], rows[1..]);
      assert VoicesOfLines(lines) == [InfoOfRow(rows[0])] + VoicesOfLines(lines[1..]);
    }
  }
}
