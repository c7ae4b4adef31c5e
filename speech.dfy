/** The audio handlers of app.py: the language hint and the Whisper model
    cache used by `stt_transcribe` (app.py:132-160), and the text, voice
    and file-naming rules of `tts_synthesize` (app.py:162-199). The speech
    models themselves (Whisper, Kokoro) are parameters: a loader, a
    transcriber and a synthesiser. */
module Speech {
  import opened Wrappers
  import opened Text
  import opened Paths
  import opened Sanitize
  import opened Concat

  /** The languages offered in the form and their Whisper codes (app.py:133). */
  const LANG_CODE_MAP: map<string, string> := map["English" := "en", "Spanish" := "es", "Deutsch" := "de"]

  /** `LANG_CODE_MAP.get(language_ui, "en")` */
  function LanguageCode(languageUi: Option<string>): string
  {
    if languageUi.Some? && languageUi.value in LANG_CODE_MAP then LANG_CODE_MAP[languageUi.value] else "en"
  }

  /** The `language=` argument of the transcription: none for English, so
      that Whisper detects the language itself. */
  function LanguageHint(lang: string): Option<string>
  {
    if lang == "en" then None else Some(lang)
  }

  /** Every choice gives one of the three codes; only Spanish and Deutsch
      pass a hint, and anything unknown falls back to English. */
  lemma LanguageChoice(languageUi: Option<string>)
    ensures LanguageCode(languageUi) in {"en", "es", "de"}
    ensures LanguageHint(LanguageCode(languageUi)) == None <==>
      languageUi != Some("Spanish") && languageUi != Some("Deutsch")
    ensures languageUi == Some("Spanish") ==> LanguageHint(LanguageCode(languageUi)) == Some("es")
    ensures languageUi == Some("Deutsch") ==> LanguageHint(LanguageCode(languageUi)) == Some("de")
  {
  }

  /** The module-level `whisper_model_cache` with `get_whisper_model`
      (app.py:135-141). `loader` is `whisper.load_model`: a model, or the
      error it raises. `loads` records every size the loader was called with. */
  class WhisperCache<M> {
    var models: map<string, M>
    ghost var loads: seq<string>
    const loader: string -> Result<M, string>

    /** Every cached model is what the loader gave for its size, every
        successful load was cached, and no size is loaded again once a load
        of it succeeded. */
    ghost predicate Valid()
      reads this
    {
      && (forall size :: size in models ==> size in loads && loader(size) == Success(models[size]))
      && (forall i :: 0 <= i < |loads| && loader(loads[i]).Success? ==> loads[i] in models)
      && (forall i, j :: 0 <= i < j < |loads| && loads[i] == loads[j] ==> loader(loads[i]).Failure?)
    }

    constructor (loader: string -> Result<M, string>)
      ensures Valid() && this.loader == loader
      ensures models == map[] && loads == []
    {
      this.loader := loader;
      models := map[];
      loads := [];
    }

    /** `get_whisper_model(size)`: the cached model, loading and caching
        it first when `size` is not cached yet. A failed load leaves the
        cache as it was. */
    method GetModel(size: string) returns (r: Result<M, string>)
      requires Valid()
      modifies this
      ensures Valid()
      ensures r == loader(size)
      ensures size in old(models) ==> r == Success(old(models)[size])
      ensures loads == old(loads) + (if size in old(models) then [] else [size])
      ensures models == (if r.Success? then old(models)[size := r.value] else old(models))
      ensures r.Success? ==> size in models
      ensures forall other :: other != size ==>
        (other in models <==> other in old(models)) && (other in models ==> models[other] == old(models)[other])
    {
      if size !in models {
        var loaded := loader(size);
        loads := loads + [size];
        if loaded.Failure? {
          return loaded;
        }
        models := models[size := loaded.value];
      }
      r := Success(models[size]);
    }

    /** Asking twice for one size: the second call gives the same model
        and never runs the loader once the first call succeeded. */
    method GetModelTwice(size: string) returns (first: Result<M, string>, second: Result<M, string>)
      requires Valid()
      modifies this
      ensures Valid()
      ensures first == second
      ensures models == (if first.Success? then old(models)[size := first.value] else old(models))
      ensures first.Success? ==> loads == old(loads) + (if size in old(models) then [] else [size])
    {
      first := GetModel(size);
      second := GetModel(size);
    }
  }

  /** `{base}_{lang}_{timestamp}.txt` */
  function TranscriptName(baseName: Option<string>, lang: string, stamp: string): string
  {
    BaseName(baseName, "transcript") + "_" + lang + "_" + stamp + ".txt"
  }

  /** `stt_transcribe`: the message shown and the file written (its name
      and text). `transcribe` stands for `model.transcribe` with the
      language hint, giving `result.get("text")` or the error raised;
      `write` for writing the text file, giving the error if one is raised. */
  method SttTranscribe<M>(cache: WhisperCache<M>, audio: Option<string>, languageUi: Option<string>,
                          baseName: Option<string>, size: string, stamp: string,
                          transcribe: (M, string, Option<string>) -> Result<Option<string>, string>,
                          write: (string, string) -> Option<string>)
    returns (message: string, written: Option<(string, string)>)
    requires cache.Valid()
    modifies cache
    ensures cache.Valid()
    ensures audio.None? ==> message == "No audio provided." && written == None
    ensures audio.None? ==> cache.models == old(cache.models) && cache.loads == old(cache.loads)
    ensures audio.Some? ==>
      && cache.models == (if cache.loader(size).Success? then old(cache.models)[size := cache.loader(size).value]
                          else old(cache.models))
      && cache.loads == old(cache.loads) + (if size in old(cache.models) then [] else [size])
    ensures audio.Some? && cache.loader(size).Failure? ==>
      message == "STT failed: " + cache.loader(size).error && written == None
    ensures audio.Some? && cache.loader(size).Success? ==>
      var lang := LanguageCode(languageUi);
      match transcribe(cache.loader(size).value, audio.value, LanguageHint(lang))
      case Failure(e) => message == "STT failed: " + e && written == None
      case Success(text) =>
        var body := StripSpaces(OrEmpty(text));
        var name := TranscriptName(baseName, lang, stamp);
        if body == "" then message == "No transcription produced." && written == None
        else
          (written == Some((name, body)) &&
           message == match write(name, body)
                      case Some(e) => "STT failed: " + e
                      case None => "Saved: " + FileName(name))
  {
    if audio.None? {
      return "No audio provided.", None;
    }
    var lang := LanguageCode(languageUi);
    var name := TranscriptName(baseName, lang, stamp);
    var model := cache.GetModel(size);
    if model.Failure? {
      return "STT failed: " + model.error, None;
    }
    var result := transcribe(model.value, audio.value, LanguageHint(lang));
    if result.Failure? {
      return "STT failed: " + result.error, None;
    }
    var body := StripSpaces(OrEmpty(result.value));
    if body == "" {
      return "No transcription produced.", None;
    }
    written := Some((name, body));
    match write(name, body) {
      case Some(e) =>
        message := "STT failed: " + e;
      case None =>
        message := "Saved: " + FileName(name);
    }
  }

  /** The module-level `kokoro_pipeline_en` with `get_kokoro_pipeline_en`
      (app.py:136, 162-166): created on first use, then reused. `create` is
      the `KPipeline(lang_code="a")` call. */
  class KokoroSlot<K> {
    var pipeline: Option<K>
    ghost var creations: nat
    const create: Result<K, string>

    /** At most one pipeline was ever created, and it is the one kept. */
    ghost predicate Valid()
      reads this
    {
      && creations <= 1
      && (pipeline.Some? <==> creations == 1)
      && (pipeline.Some? ==> create == Success(pipeline.value))
    }

    constructor (create: Result<K, string>)
      ensures Valid() && this.create == create
      ensures pipeline == None && creations == 0
    {
      this.create := create;
      pipeline := None;
      creations := 0;
    }

    /** `get_kokoro_pipeline_en()` */
    method Get() returns (r: Result<K, string>)
      requires Valid()
      modifies this
      ensures Valid()
      ensures r == create
      ensures old(pipeline).Some? ==> r == Success(old(pipeline).value) && pipeline == old(pipeline)
      ensures old(pipeline).None? && r.Success? ==> pipeline == Some(r.value)
      ensures old(pipeline).None? && r.Failure? ==> pipeline == None && creations == old(creations)
    {
      if pipeline.None? {
        if create.Failure? {
          return create;
        }
        pipeline := Some(create.value);
        creations := creations + 1;
      }
      r := Success(pipeline.value);
    }
  }

  /** `(text or "").strip()` */
  function TtsText(text: Option<string>): string
  {
    StripSpaces(OrEmpty(text))
  }

  /** Text is rejected exactly when it is missing or only whitespace. */
  lemma EmptyTextRejected(text: Option<string>)
    ensures TtsText(text) == "" <==> forall i :: 0 <= i < |OrEmpty(text)| ==> OrEmpty(text)[i] in WHITESPACE
  {
    StripEmpty(OrEmpty(text), WHITESPACE);
  }

  const DEFAULT_VOICE := "af_heart"

  /** `(voice_name or "").strip() or "af_heart"` */
  function Voice(voiceName: Option<string>): string
  {
    var v := StripSpaces(OrEmpty(voiceName));
    if v == "" then DEFAULT_VOICE else v
  }

  /** A voice is always named: the default when none is given, otherwise
      the given name with its surrounding whitespace removed, that is, the
      slice of the name that starts and ends with a non-whitespace
      character and has only whitespace outside it. */
  lemma VoiceChoice(voiceName: Option<string>)
    ensures Voice(voiceName) != ""
    ensures (forall i :: 0 <= i < |OrEmpty(voiceName)| ==> OrEmpty(voiceName)[i] in WHITESPACE) ==>
      Voice(voiceName) == DEFAULT_VOICE
    ensures var s, v, lo := OrEmpty(voiceName), Voice(voiceName), StripStart(OrEmpty(voiceName), WHITESPACE);
      !(forall i :: 0 <= i < |s| ==> s[i] in WHITESPACE) ==>
        && 0 <= lo && lo + |v| <= |s| && v == s[lo..lo + |v|]
        && (forall k :: 0 <= k < lo ==> s[k] in WHITESPACE)
        && (forall k :: lo + |v| <= k < |s| ==> s[k] in WHITESPACE)
        && v[0] !in WHITESPACE && v[|v| - 1] !in WHITESPACE
  {
    StripEmpty(OrEmpty(voiceName), WHITESPACE);
    StripSlice(OrEmpty(voiceName), WHITESPACE);
  }

  /** `{base}_en_{i}_{timestamp}.wav`, the file of segment `i` (from 0). */
  function SegmentName(base: string, i: nat, stamp: string): string
  {
    IndexedName(base + "_en", i, "_" + stamp + ".wav")
  }

  /** `{base}_en_{timestamp}.wav`, the file of all segments merged. */
  function MergedName(base: string, stamp: string): string
  {
    base + "_en_" + stamp + ".wav"
  }

  /** The loop that writes one file per segment: the names it collects and
      the files (name and samples) it writes, where `clock(i)` is the
      timestamp read while handling segment `i`. */
  method WriteSegments<A>(base: string, chunks: seq<seq<A>>, clock: nat -> string)
    returns (names: seq<string>, files: seq<(string, seq<A>)>)
    ensures |names| == |files| == |chunks|
    ensures forall i :: 0 <= i < |chunks| ==> names[i] == FileName(SegmentName(base, i, clock(i)))
    ensures forall i :: 0 <= i < |chunks| ==> files[i] == (SegmentName(base, i, clock(i)), chunks[i])
  {
    names, files := [], [];
    var i := 0;
    while i < |chunks|
      invariant 0 <= i <= |chunks|
      invariant |names| == |files| == i
      invariant forall k :: 0 <= k < i ==> names[k] == FileName(SegmentName(base, k, clock(k)))
      invariant forall k :: 0 <= k < i ==> files[k] == (SegmentName(base, k, clock(k)), chunks[k])
    {
      var name := SegmentName(base, i, clock(i));
      files := files + [(name, chunks[i])];
      names := names + [FileName(name)];
      i := i + 1;
    }
  }

  /** Segments are written to distinct files when every timestamp has the
      same length, so no segment overwrites another. */
  lemma SegmentNamesDiffer(base: string, clock: nat -> string, i: nat, j: nat)
    requires i != j && |clock(i)| == |clock(j)|
    ensures SegmentName(base, i, clock(i)) != SegmentName(base, j, clock(j))
  {
    IndexedNamesDiffer(base + "_en", base + "_en", i, j, "_" + clock(i) + ".wav", "_" + clock(j) + ".wav");
  }

  /** `tts_synthesize`: the message shown and the files written. `synth`
      stands for running the pipeline on the text with the voice and
      collecting its audio segments, or the error raised. */
  method TtsSynthesize<K, A>(slot: KokoroSlot<K>, text: Option<string>, voiceName: Option<string>,
                             baseName: Option<string>, mergeSegments: bool, clock: nat -> string,
                             synth: (K, string, string) -> Result<seq<seq<A>>, string>)
    returns (message: string, files: seq<(string, seq<A>)>)
    requires slot.Valid()
    modifies slot
    ensures slot.Valid()
    ensures TtsText(text) == "" ==> message == "Empty text." && files == [] && slot.pipeline == old(slot.pipeline)
    ensures TtsText(text) != "" ==> slot.pipeline == (if slot.create.Success? then Some(slot.create.value) else None)
    ensures TtsText(text) != "" && slot.create.Failure? ==> message == "TTS failed: " + slot.create.error && files == []
    ensures TtsText(text) != "" && slot.create.Success? ==>
      var base := BaseName(baseName, "tts");
      match synth(slot.create.value, TtsText(text), Voice(voiceName))
      case Failure(e) => message == "TTS failed: " + e && files == []
      case Success(chunks) =>
        if chunks == [] then message == "No audio produced." && files == []
        else if mergeSegments then
          files == [(MergedName(base, clock(0)), Flatten(chunks))] &&
          message == "Saved: " + FileName(MergedName(base, clock(0)))
        else
          |files| == |chunks| &&
          (forall i :: 0 <= i < |chunks| ==> files[i] == (SegmentName(base, i, clock(i)), chunks[i])) &&
          message == "Saved:\n" + Join(seq(|chunks|, i requires 0 <= i < |chunks| => FileName(files[i].0)), "\n")
  {
    var t := TtsText(text);
    if t == "" {
      return "Empty text.", [];
    }
    var base := BaseName(baseName, "tts");
    var pipeline := slot.Get();
    if pipeline.Failure? {
      return "TTS failed: " + pipeline.error, [];
    }
    var voice := Voice(voiceName);
    var generated := synth(pipeline.value, t, voice);
    if generated.Failure? {
      return "TTS failed: " + generated.error, [];
    }
    var chunks := generated.value;
    if chunks == [] {
      return "No audio produced.", [];
    }
    if mergeSegments {
      var name := MergedName(base, clock(0));
      return "Saved: " + FileName(name), [(name, Flatten(chunks))];
    }
    var names;
    names, files := WriteSegments(base, chunks, clock);
    assert names == seq(|chunks|, i requires 0 <= i < |chunks| => FileName(files[i].0));
    message := "Saved:\n" + Join(names, "\n");
  }
}
