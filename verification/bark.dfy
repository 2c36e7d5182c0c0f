/**
 The Bark GPU worker's HTTP handler: `POST /synthesize` validates the text,
 maps a simple voice name to a Bark speaker preset, loads the model on first
 use and answers 200 with the audio, 400 for a rejected text and 500 for any
 exception. Model loading and generation are inputs.
 */
module BarkWorker {

  import opened Wrappers
  import opened Text
  import opened Decimal
  import opened Requests

  /** `TTS_MAX_LENGTH` and `BARK_VOICE`. */
  datatype BarkConfig = BarkConfig(maxTextLength: int, defaultVoice: string)

  const DefaultConfig := BarkConfig(500, "v2/en_speaker_6")

  const SampleRate: nat := 24000

  const PresetPrefix := "v2/"

  const NoText := "No text provided"

  function TooLong(max: int): string {
    "Text too long (max " + IntToString(max) + " chars). Split into smaller chunks for best results."
  }

  // ------------------------------------------------------------ voices

  /** The `voice_map` of simple names to presets. */
  function NamedPreset(name: string): Option<string> {
    if name == "male" then Some("v2/en_speaker_6")
    else if name == "female" then Some("v2/en_speaker_9")
    else if name == "narrator" then Some("v2/en_speaker_1")
    else None
  }

  /** The handler's voice step: an absent, `null` or empty voice and a
      voice starting with "v2/" are left as they are; any other name is
      lower-cased and looked up, falling back to the default preset. */
  function MapVoice(voice: Option<string>, default: string): (r: Option<string>)
    ensures !Truthy(voice) ==> r == voice
    ensures Truthy(voice) && StartsWith(voice.value, PresetPrefix) ==> r == voice
    ensures Truthy(voice) && !StartsWith(voice.value, PresetPrefix) ==>
      r == Some(NamedPreset(LowerAscii(voice.value)).GetOr(default))
  {
    if Truthy(voice) && !StartsWith(voice.value, PresetPrefix) then
      Some(NamedPreset(LowerAscii(voice.value)).GetOr(default))
    else voice
  }

  /** `synthesize`'s `voice if voice else DEFAULT_VOICE`. */
  function HistoryPrompt(voice: Option<string>, default: string): (r: string)
    ensures Truthy(voice) ==> r == voice.value
    ensures !Truthy(voice) ==> r == default
  {
    if Truthy(voice) then voice.value else default
  }

  /** The preset Bark is given for the request's voice field. */
  function PresetFor(voice: Field, cfg: BarkConfig): string {
    HistoryPrompt(MapVoice(Lookup(voice, None), cfg.defaultVoice), cfg.defaultVoice)
  }

  /** Every case of the voice choice, end to end. */
  lemma PresetChoice(voice: Field, cfg: BarkConfig)
    ensures var p := PresetFor(voice, cfg);
      && (!voice.Str? || voice.s == "" ==> p == cfg.defaultVoice)
      && (voice.Str? && StartsWith(voice.s, PresetPrefix) ==> p == voice.s)
      && (voice.Str? && !StartsWith(voice.s, PresetPrefix) ==>
            && (LowerAscii(voice.s) == "male" ==> p == "v2/en_speaker_6")
            && (LowerAscii(voice.s) == "female" ==> p == "v2/en_speaker_9")
            && (LowerAscii(voice.s) == "narrator" ==> p == "v2/en_speaker_1")
            && (LowerAscii(voice.s) !in {"male", "female", "narrator"} ==> p == cfg.defaultVoice))
  {
  }

  /** Bark is always given a preset: when the default is one, so is every
      choice. */
  lemma PresetIsAlwaysAPreset(voice: Field, cfg: BarkConfig)
    requires StartsWith(cfg.defaultVoice, PresetPrefix)
    ensures StartsWith(PresetFor(voice, cfg), PresetPrefix)
  {
  }

  /** Simple names are matched without regard to ASCII case. */
  lemma NamesIgnoreCase(a: string, b: string, cfg: BarkConfig)
    requires a != [] && b != []
    requires !StartsWith(a, PresetPrefix) && !StartsWith(b, PresetPrefix)
    requires LowerAscii(a) == LowerAscii(b)
    ensures PresetFor(Str(a), cfg) == PresetFor(Str(b), cfg)
  {
  }

  // ------------------------------------------------------------ loading

  datatype LoadResult = LoadResult(loaded: bool, error: Option<string>)

  /** `load_bark`: nothing happens once the flag is set; otherwise the
      preload either raises (flag still clear) or sets the flag. */
  function LoadBark(loaded: bool, preload: Option<string>): (r: LoadResult)
    ensures loaded ==> r == LoadResult(true, None)
    ensures !loaded ==> r.loaded == preload.None? && r.error == preload
  {
    if loaded then LoadResult(true, None)
    else if preload.Some? then LoadResult(false, preload)
    else LoadResult(true, None)
  }

  /** Once loaded, loading again does nothing, whatever the preload would do. */
  lemma LoadBarkIdempotent(loaded: bool, first: Option<string>, second: Option<string>)
    requires LoadBark(loaded, first).error.None?
    ensures LoadBark(loaded, first).loaded
    ensures LoadBark(LoadBark(loaded, first).loaded, second) == LoadBark(loaded, first)
  {
  }

  // ------------------------------------------------------------ handler

  datatype BarkRequest = BarkRequest(text: Field, voice: Field)

  /** The request body: a JSON object, or bytes that could not be read or
      decoded, with the exception's message. */
  datatype Body = Parsed(request: BarkRequest) | Unreadable(message: string)

  datatype Payload =
    | NoPayload
    | Success(audio: seq<byte>, sampleRate: nat, duration: real)
    | Failure(message: string)

  datatype Response = Response(code: nat, payload: Payload)

  /** The response, the model flag afterwards, and the (text, preset) pair
      generation was asked for, if it was. */
  datatype Handled = Handled(response: Response, loaded: bool, generated: Option<(string, string)>)

  /** `BarkHandler.do_POST`. */
  function DoPost(
    cfg: BarkConfig, loaded: bool, path: string, body: Body,
    preload: Option<string>, generate: (string, string) -> Attempt<seq<byte>>)
    : (r: Handled)
    ensures path != "/synthesize" ==> r == Handled(Response(404, NoPayload), loaded, None)
    ensures path == "/synthesize" && body.Unreadable? ==>
      r == Handled(Response(500, Failure(body.message)), loaded, None)
    ensures path == "/synthesize" && body.Parsed? ==>
      var text := Lookup(body.request.text, Some(""));
      && (!Truthy(text) ==> r == Handled(Response(400, Failure(NoText)), loaded, None))
      && (Truthy(text) && |text.value| > cfg.maxTextLength ==>
            r == Handled(Response(400, Failure(TooLong(cfg.maxTextLength))), loaded, None))
      && (Truthy(text) && |text.value| <= cfg.maxTextLength ==>
            var load := LoadBark(loaded, preload);
            && r.loaded == load.loaded
            && (load.error.Some? ==> r == Handled(Response(500, Failure(load.error.value)), false, None))
            && (load.error.None? ==>
                  var preset := PresetFor(body.request.voice, cfg);
                  var made := generate(text.value, preset);
                  && r.generated == Some((text.value, preset))
                  && (made.Raises? ==> r.response == Response(500, Failure(made.message)))
                  && (made.Done? ==> r.response.code == 200 && r.response.payload.Success?
                                     && r.response.payload.audio == made.value)))
    ensures r.response.code == 200 <==> r.response.payload.Success?
    ensures r.response.payload.Success? ==>
      && r.response.payload.sampleRate == SampleRate
      && r.response.payload.duration * (2 * SampleRate) as real == (|r.response.payload.audio| - 44) as real
  {
    if path != "/synthesize" then Handled(Response(404, NoPayload), loaded, None)
    else match body
      case Unreadable(message) => Handled(Response(500, Failure(message)), loaded, None)
      case Parsed(req) =>
        var text := Lookup(req.text, Some(""));
        if !Truthy(text) then Handled(Response(400, Failure(NoText)), loaded, None)
        else if |text.value| > cfg.maxTextLength then
          Handled(Response(400, Failure(TooLong(cfg.maxTextLength))), loaded, None)
        else
          var voice := MapVoice(Lookup(req.voice, None), cfg.defaultVoice);
          var load := LoadBark(loaded, preload);
          if load.error.Some? then Handled(Response(500, Failure(load.error.value)), load.loaded, None)
          else
            var preset := HistoryPrompt(voice, cfg.defaultVoice);
            match generate(text.value, preset)
            case Raises(message) => Handled(Response(500, Failure(message)), load.loaded, Some((text.value, preset)))
            case Done(audio) =>
              Handled(Response(200, Success(audio, SampleRate, WavSeconds(|audio|, SampleRate))),
                      load.loaded, Some((text.value, preset)))
  }
}
