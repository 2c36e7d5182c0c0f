/**
 The Qwen3-TTS GPU worker: `Worker.process` validates a request, calls the
 synthesis function and turns every exception into an error result; the
 model is loaded once, on first use, and cached in a module-level variable.
 Model loading and generation are inputs, as the outcomes they produced.
 */
module QwenWorker {

  import opened Wrappers
  import opened Text
  import opened Decimal
  import opened Requests

  /** `WorkerConfig`: `TTS_MODEL` and `TTS_MAX_LENGTH`. */
  datatype WorkerConfig = WorkerConfig(modelId: string, maxTextLength: int)

  const DefaultConfig := WorkerConfig("Qwen/Qwen3-TTS-12Hz-1.7B-Base", 5000)

  /** The sample rate of the generated audio, a constant of the worker. */
  const SampleRate: nat := 24000

  const NoText := "No text provided"

  function TooLong(max: int): string {
    "Text too long (max " + IntToString(max) + " chars)"
  }

  /** A loaded model; only its identity matters here. */
  datatype Model = Model(handle: nat)

  datatype Loaded = Loaded(cache: Option<Model>, result: Attempt<Model>)

  /** `load_model`: a cached model is returned as it is and `attempt` (what
      `from_pretrained` would do) is not consulted; otherwise a model that
      loads is cached and returned, and a failure is re-raised with the
      cache still empty. */
  function LoadModel(cache: Option<Model>, attempt: Attempt<Model>): (r: Loaded)
    ensures cache.Some? ==> r == Loaded(cache, Done(cache.value))
    ensures cache.None? && attempt.Done? ==> r == Loaded(Some(attempt.value), attempt)
    ensures cache.None? && attempt.Raises? ==> r == Loaded(None, attempt)
    ensures r.result.Done? ==> r.cache == Some(r.result.value)
    ensures r.result.Raises? ==> r.cache.None?
  {
    match cache
    case Some(model) => Loaded(cache, Done(model))
    case None =>
      match attempt
      case Done(model) => Loaded(Some(model), attempt)
      case Raises(_) => Loaded(None, attempt)
  }

  /** Loading twice is loading once: after a successful load, a second call
      returns the same model without loading, whatever the second attempt
      would have done. */
  lemma LoadModelIdempotent(cache: Option<Model>, first: Attempt<Model>, second: Attempt<Model>)
    requires LoadModel(cache, first).result.Done?
    ensures var once := LoadModel(cache, first);
      LoadModel(once.cache, second) == Loaded(once.cache, once.result)
  {
  }

  /** The fields of the request object. */
  datatype WorkerRequest = WorkerRequest(text: Field, language: Field, voice: Field)

  /** What `synthesize` is called with, as the model sees it: the text, the
      language (None for a JSON `null`), and the reference audio for voice
      cloning, present only when the `voice` field is a non-empty string. */
  datatype SynthCall = SynthCall(text: string, language: Option<string>, reference: Option<string>)

  datatype WorkerResponse =
    | Success(audio: seq<byte>, sampleRate: nat, duration: real)
    | Error(message: string)

  /** The response, the model cache afterwards, and the synthesis call made,
      if any. */
  datatype Processed = Processed(response: WorkerResponse, cache: Option<Model>, call: Option<SynthCall>)

  /** The arguments `process` hands to `synthesize` once the text is valid. */
  function CallOf(text: string, req: WorkerRequest): (c: SynthCall)
    ensures c.text == text
    ensures req.language.Missing? ==> c.language == Some("English")
    ensures req.language.Null? ==> c.language.None?
    ensures req.language.Str? ==> c.language == Some(req.language.s)
    ensures c.reference.Some? <==> req.voice.Str? && req.voice.s != ""
    ensures c.reference.Some? ==> c.reference.value == req.voice.s
  {
    var voice := Lookup(req.voice, None);
    SynthCall(text, Lookup(req.language, Some("English")), if Truthy(voice) then voice else None)
  }

  /** `Worker.process`. `attempt` is what loading the model would do and
      `generate` what the model produces for a call (including the failures
      of decoding the reference audio); neither is consulted unless the text
      passes both checks. */
  function Process(
    cfg: WorkerConfig, cache: Option<Model>, req: WorkerRequest,
    attempt: Attempt<Model>, generate: (Model, SynthCall) -> Attempt<seq<byte>>)
    : (r: Processed)
    ensures var text := Lookup(req.text, Some(""));
      && (!Truthy(text) ==> r == Processed(Error(NoText), cache, None))
      && (Truthy(text) && |text.value| > cfg.maxTextLength ==>
            r == Processed(Error(TooLong(cfg.maxTextLength)), cache, None))
      && (r.call.Some? <==> Truthy(text) && |text.value| <= cfg.maxTextLength)
      && (r.call.Some? ==> r.call.value == CallOf(text.value, req))
    ensures r.call.Some? ==>
      var loaded := LoadModel(cache, attempt);
      && r.cache == loaded.cache
      && (loaded.result.Raises? ==> r.response == Error(loaded.result.message))
      && (loaded.result.Done? ==>
            var made := generate(loaded.result.value, r.call.value);
            && (made.Raises? ==> r.response == Error(made.message))
            && (made.Done? ==> r.response.Success? && r.response.audio == made.value))
    ensures r.response.Success? ==>
      && r.response.sampleRate == SampleRate
      && r.response.duration * (2 * SampleRate) as real == (|r.response.audio| - 44) as real
  {
    var text := Lookup(req.text, Some(""));
    if !Truthy(text) then Processed(Error(NoText), cache, None)
    else if |text.value| > cfg.maxTextLength then Processed(Error(TooLong(cfg.maxTextLength)), cache, None)
    else
      var call := CallOf(text.value, req);
      var loaded := LoadModel(cache, attempt);
      match loaded.result
      case Raises(message) => Processed(Error(message), loaded.cache, Some(call))
      case Done(model) =>
        match generate(model, call)
        case Raises(message) => Processed(Error(message), loaded.cache, Some(call))
        case Done(audio) =>
          Processed(Success(audio, SampleRate, WavSeconds(|audio|, SampleRate)), loaded.cache, Some(call))
  }

  /** With a model already cached, the load attempt plays no part: two
      workers that differ only in what loading would have done answer alike,
      and the cache keeps the model it had. */
  lemma WarmWorkerIgnoresLoading(
    cfg: WorkerConfig, model: Model, req: WorkerRequest,
    a1: Attempt<Model>, a2: Attempt<Model>, generate: (Model, SynthCall) -> Attempt<seq<byte>>)
    ensures Process(cfg, Some(model), req, a1, generate) == Process(cfg, Some(model), req, a2, generate)
    ensures Process(cfg, Some(model), req, a1, generate).cache == Some(model)
  {
  }

  /** The length limit is inclusive: a non-empty text of exactly the
      configured length reaches synthesis, one character more does not. */
  lemma LengthLimitIsInclusive(
    cfg: WorkerConfig, cache: Option<Model>, req: WorkerRequest,
    attempt: Attempt<Model>, generate: (Model, SynthCall) -> Attempt<seq<byte>>)
    requires req.text.Str? && req.text.s != []
    ensures |req.text.s| == cfg.maxTextLength ==> Process(cfg, cache, req, attempt, generate).call.Some?
    ensures |req.text.s| == cfg.maxTextLength + 1 ==>
      Process(cfg, cache, req, attempt, generate).response == Error(TooLong(cfg.maxTextLength))
  {
  }
}
