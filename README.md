# Local Media Utility: a verified model of its handler logic

Local Media Utility is a single-file Gradio application (`app.py`). It
converts images, compresses and merges PDFs, transcribes speech, synthesises
speech and transcribes YouTube audio. Each handler is a short pipeline:
check the form inputs, call a library, write a file under a fixed folder,
and return a status message. This project models, in Dafny, the logic that
`app.py` itself contains around those library calls:

- `sanitize_name`, which every output file name goes through, and the
  "sanitised base name or a fallback" rule that every handler applies
  (`sanitize.dfy`);
- the per-file decisions of `image_convert`: the target format, the
  image-type check on the suffix, RGB forcing, WebP save options, output
  names and log lines (`images.dfy`). Its loop over the files is modelled as
  a method (`image_convert.dfy`);
- `pdf_merge`: the input check, and a writer whose page list grows page by
  page in nested loops. Also the decision rules of `pdf_compress`: the level,
  the save settings, and keeping the qpdf output only when it is no larger
  (`pdfs.dfy`, with concatenation facts in `concat.dfy`);
- the language map and hint, the memoising Whisper model cache, the lazily
  created Kokoro pipeline, and the text, voice and file-naming rules of
  `tts_synthesize` (`speech.dfy`);
- the YouTube title cleaning, `sanitize_name(title)[:80] or "video"`
  (`youtube.dfy`);
- the few Python `str` and `pathlib` operations these rely on, over ASCII
  (`text.dfy`, `paths.dfy`), and `None`/truthiness helpers (`wrappers.dfy`).

Library calls are parameters of the model. These are image decoding and
encoding, PDF reading, saving and writing, model loading, transcription,
synthesis and file writes. Each is an abstract function that returns a
result or the message of the exception it raises. Clock readings are also
parameters: `stamp`, or `clock(i)` for the reading taken while handling
item `i`.

Output names carry a timestamp in the format `%Y%m%d_%H%M%S`, which has a
resolution of one second. Within one call, names are still unique because
they also carry the item index: counted from 1 over the files of
`image_convert`, and from 0 over the segments of one `tts_synthesize` call.
`ImageConvert.DistinctOutputNames` and `Speech.SegmentNamesDiffer` prove this
for timestamps of equal length. Nothing keeps two calls apart. Two calls in
the same second write to the same path when:

- `pdf_merge` or `pdf_compress`: the sanitised base name (or its fallback)
  is the same, since both write `{base}_{ts}.pdf` into one folder;
- `image_convert`: the base name, the sanitised stem, the index and the
  target format are all the same;
- `stt_transcribe`: the base name and the language code are the same;
- `tts_synthesize`: the base name is the same for the merged file
  `{base}_en_{ts}.wav`, and the base name and the segment index are the same
  for the per-segment files `{base}_en_{i}_{ts}.wav`;
- `youtube_to_text`: the base name and the clean title are the same.

## Model

| member | source | states |
|---|---|---|
| Sanitize.SanitizeIsClean | app.py:17-18 | `SanitizeName`: whatever the input, including `None`, the result is non-empty, contains only ASCII letters, digits, `-` and `_`, and neither starts nor ends with `_`. |
| Sanitize.SanitizeFallback | app.py:18 | `None`, `""`, or any name with no letter, digit or dash gives `"file"`. |
| Sanitize.SanitizeKeepsContent | app.py:18 | When the name has a letter, digit or dash, the result holds exactly the name's letters, digits and dashes, in their order: nothing significant is lost or invented. |
| Sanitize.KeepReplace | app.py:18 | Replacing disallowed characters by `_` keeps every letter, digit and dash, in order. |
| Sanitize.KeepStrip | app.py:18 | Stripping underscores from both ends loses no letter, digit or dash. |
| Sanitize.SanitizeKeepsDashEnds | app.py:18 | A leading or trailing `-` survives: only underscores are stripped. |
| Sanitize.SanitizeFixedPoint | app.py:18 | A string is returned unchanged exactly when it is already clean (non-empty, allowed characters, no `_` at either end). |
| Sanitize.SanitizeIdempotent | app.py:18 | Sanitising a sanitised name changes nothing. |
| Sanitize.BaseName | app.py:43 | `sanitize_name(base_name) if base_name else fallback`: a missing or empty base gives the fallback, any other gives a clean name. |
| Text.StripSlice | app.py:18 | `strip(chars)` returns one contiguous slice of its input: everything before and after it is in `chars`, and neither end of it is. |
| Text.StripEmpty | app.py:18 | `strip(chars)` gives `""` exactly when every character is in `chars`. |
| Text.StripFixes | app.py:18 | A string whose ends are not in `chars` is unchanged by `strip(chars)`. |
| Text.TrimLeftSuffix | app.py:48 | `lstrip(chars)` returns a suffix of its input. |
| Text.TrimLeftDrops | app.py:48 | `lstrip(chars)` drops only characters of `chars` and stops at the first one not in `chars`. |
| Text.DecimalRoundTrip | app.py:55 | `f"{idx}"` renders a number as digits that read back as that number. |
| Text.DecimalInjective | app.py:55 | Different indexes render as different strings. |
| Text.IndexedNamesDiffer | app.py:55 | Two names `prefix_<index><tail>` with different indexes and equal-length tails differ, whatever their prefixes. |
| Text.JoinStartsWithFirst | app.py:67 | `"\n".join(logs)` starts with the first log line. |
| Paths.FileNameHasNoSlash | app.py:50 | `FileName`, that is `Path(f).name`, is the last component of the path: after trailing `/` are dropped, it is the part after the last `/` (the whole path when there is none). It contains no `/`, and a path without `/` is its own name. |
| Paths.StemAndSuffix | app.py:48-54 | `Stem(name) + Suffix(name)` is the file name. A non-empty suffix is a dot followed by one or more non-dot characters, and the suffix is non-empty exactly when the name has a dot, not in first or last position, with no dot after it (so `photo.jpg` has suffix `.jpg`). |
| Images.TargetFormat | app.py:40-42 | The format is never `jpg`. It is `jpeg` exactly when the lower-cased target is `jpg` or `jpeg`, and otherwise it is the lower-cased target. |
| ImageConvert.HandleFile | app.py:46-66 | The body of the loop for one file: it appends the log line of that file's plan, and hands the library the planned job, or nothing for a file that is not image-typed. |
| ImageConvert.ImageConvert | app.py:37-67 | No files give `"No images provided."`, no log lines and no jobs. Otherwise there is one log line per file, in input order, and the library gets exactly the jobs of the image-typed files, in order. The report is the joined log. |
| ImageConvert.ReportNeverDone | app.py:67 | `Report`: for a non-empty batch the report is never `"Done."`: it starts with the first file's log line. |
| Images.SourceExtensionOfSuffix | app.py:48 | `SourceExtension` is the file name's suffix without its dot, lower-cased, and empty when the name has no suffix. |
| Images.LogLineOutcome | app.py:49-66 | `LogLine` starts with `Saved` exactly when the library wrote the file, with `Skipped` exactly when the file is not an image type or was not recognised, and with `Error for` exactly when the library failed. |
| ImageConvert.PlanSettings | app.py:40-61 | `PlanFile` stated against the user's target `t` (lower-cased, `None` as empty): a file is converted exactly when its extension is in `IMAGE_FORMATS`. Its job reads that file, forces RGB exactly when `t` is `jpg` or `jpeg`, saves as `JPEG` for those and as upper-cased `t` otherwise, and passes quality 90 and method 6 exactly when `t` is `webp`. |
| ImageConvert.JobSources | app.py:45-61 | The sources of the jobs are exactly the image-typed input files, each once and in input order. |
| ImageConvert.JobsFit | app.py:45-61 | Every job reads one of the inputs and has the settings of the chosen format. |
| ImageConvert.JobsAreImages | app.py:45-61 | Over a whole batch, the jobs read the image-typed files, each once and in input order, and every job has the settings of the chosen format. |
| ImageConvert.OutputNamesDiffer | app.py:55 | Output names built for different indexes with equal-length timestamps differ. |
| ImageConvert.PlannedNamesDiffer | app.py:45-56 | Two converted files of one batch get different names when their timestamps have equal length. |
| ImageConvert.DistinctOutputNames | app.py:45-56 | When every timestamp has the same length, no two converted files of one call share an output name, so none overwrites another. |
| Concat.FlattenLength | app.py:113-117 | The merged sequence has as many elements as the parts together. |
| Concat.FlattenPrefix | app.py:113-117 | Merging the first `i` inputs gives a prefix of the full merge. |
| Concat.FlattenAt | app.py:113-117 | Page `j` of input `i` lands right after all pages of inputs `0..i-1`: input order and page order are both kept. |
| Pdfs.PdfWriter.constructor | app.py:112 | A new writer has no pages. |
| Pdfs.PdfWriter.AddPage | app.py:117 | `add_page` appends exactly that page. |
| Pdfs.ReadPagesSuccess | app.py:113-117 | `ReadPages`: reading succeeds exactly when every input is readable, and then gives every input's pages concatenated in input order. |
| Pdfs.ReadPagesFailure | app.py:113-122 | A failed read reports the error of the first input that cannot be read; all inputs before it were read. |
| Pdfs.PdfMerge | app.py:105-122 | Fewer than two files give `"Provide at least two PDFs."` and nothing is written. An unreadable input gives `"Merge failed: "` with its error. Otherwise the writer is handed every page in input order, and the result is `"Saved: {name}"` or `"Merge failed: "` with the write error. |
| Pdfs.CompressionLevel | app.py:83 | A missing or empty quality means `"medium"`; otherwise the quality is lower-cased. |
| Pdfs.RecompressByQuality | app.py:83-91 | `Settings` of `CompressionLevel(quality)`: flate recompression is on exactly for a blank, medium or low quality, and off for high. Linearize and stream compression are always on. |
| Pdfs.FinalSizeIsSmaller | app.py:93-100 | `FinalSize`: the file kept is never larger than pikepdf's output. It is qpdf's output when that exists and is no larger, otherwise pikepdf's. |
| Pdfs.PdfCompressOutcome | app.py:75-103 | `PdfCompress`: `"No PDF provided."` exactly when there is no file. A failed save gives `"Compression failed: "` with its error and leaves no file. Otherwise a file no larger than the saved one is kept. On success the message is `"Saved: "` followed by the name of the output file. |
| Speech.LanguageChoice | app.py:133-152 | `LanguageCode` and `LanguageHint`: the code is always `en`, `es` or `de`, with `en` for anything unknown. Only Spanish and Deutsch pass a language hint, and English passes none. |
| Speech.WhisperCache.constructor | app.py:135 | The cache starts empty and nothing has been loaded. |
| Speech.WhisperCache.GetModel | app.py:138-141 | Afterwards the size is cached, unless loading failed. The loader runs only if the size was absent. Other entries are unchanged. A cached size returns its cached model. |
| Speech.WhisperCache.GetModelTwice | app.py:138-141 | A repeated call returns the same model. The cache afterwards holds that model if loading succeeded and is unchanged otherwise; once the first call succeeded, the loader is not run again. |
| Speech.SttTranscribe | app.py:143-160 | The messages of `stt_transcribe` for a missing audio file, a failed load, a failed transcription and an empty transcript. Otherwise the stripped text is written to `{base}_{lang}_{ts}.txt`. Whenever audio is given, the cache is left as one `GetModel` call of that size leaves it: the model is added if loading succeeded, and the loader runs only if the size was absent. |
| Speech.KokoroSlot.constructor | app.py:136 | The pipeline slot starts empty. |
| Speech.KokoroSlot.Get | app.py:162-166 | The pipeline is created at most once and then reused. |
| Speech.EmptyTextRejected | app.py:169-171 | `TtsText`: text is rejected with `"Empty text."` exactly when it is missing or all whitespace. |
| Speech.VoiceChoice | app.py:175 | `Voice` is always non-empty: `af_heart` when none or only whitespace is given. Otherwise it is the one slice of the given name that has only whitespace before and after it and neither starts nor ends with whitespace. |
| Speech.WriteSegments | app.py:190-196 | One file per segment, in order: segment `i` (from 0) goes to `{base}_en_{i}_{ts}.wav`, and its name is collected for the message. |
| Speech.SegmentNamesDiffer | app.py:193 | Segments with different indexes and equal-length timestamps are written to different files. |
| Speech.TtsSynthesize | app.py:168-199 | The messages of `tts_synthesize` for empty text, a failed pipeline, a failed synthesis and no segments. Merging writes one file with all segments concatenated; otherwise one file per segment, listed after `"Saved:"`. For non-empty text, the pipeline slot afterwards holds the created pipeline, or stays empty if creation failed. |
| Youtube.TitleFallbackUnreachable | app.py:246 | `CleanTitle`: the `"video"` fallback is never taken. The clean title is the first 80 characters at most of the sanitised title, so it is non-empty, uses allowed characters only and does not start with `_`. |
| Youtube.ShortTitleKept | app.py:246 | A title that sanitises to 80 characters or fewer is kept whole. |
| Youtube.TranscriptNameStaysInFolder | app.py:234-248 | `{base}_{clean title}_{ts}.txt` contains no `/` when the timestamp has none, because neither the base name nor the clean title can contain one. The transcript is therefore written directly into the videos folder, under its own name. |

## Left out

- Characters: `str.isalnum`, `isspace`, `lower` and `upper` are modelled on ASCII only. Python's Unicode-aware versions would, for example, keep `é` in a name, where the model replaces it by `_`.
- Paths: `Path(f).name` is modelled as the text after the last `/`, ignoring trailing separators. Other normalisation and Windows separators are not modelled. `suffix` and `stem` follow the pathlib rule of Python 3.13 and earlier, where a name ending in `.` has no suffix.
- Gradio form construction and callbacks (app.py:262-329): presentation only.
- Directory creation and all reads, writes, renames and unlinks of files: filesystem I/O. Where an outcome matters, it is a parameter: a write error, a file size, or whether qpdf produced a file.
- `safe_open_image` with PIL's decode, RGB conversion and encode: one abstract codec outcome per job. The job carries `forceRgb`, and RGB conversion is the codec's business.
- `meaningful_timestamp`, `datetime.now` and `time.time`: wall-clock readings, passed in as `stamp` or `clock`. The name-uniqueness lemmas assume equal-length readings, as the `%Y%m%d_%H%M%S` format gives.
- The qpdf subprocess and `shutil.which`: the run is a parameter (`QpdfRun`). Errors raised by `stat`, `unlink` or `rename` during the qpdf step are not modelled.
- pikepdf's open and save, pypdf's reader and writer internals: a read gives a page sequence or an error, and a save gives a size or an error.
- Whisper loading and transcription, and Kokoro synthesis with its float32 and numpy handling: abstract functions. The loader is a function of the size, so "the same model" means the same value. The 24000 Hz sample rate is not modelled.
- The `size="base"` default of `get_whisper_model`: every caller passes a size, so the model always takes one.
- Speech.WhisperCache.GetModelTwice: the loader is a pure function of the size, so a load that fails is modelled as failing again, identically, on the next call. In `app.py` a failed load leaves the size absent, and the next call retries it and may succeed.
- Speech.KokoroSlot.Get: creating the pipeline is modelled as one fixed outcome, so a creation that fails is modelled as failing on every call. In `app.py` the slot stays `None` after a failure, and the next call retries the creation.
- Speech.TtsSynthesize: does not model a failing `sf.write`, because sound-file writing is I/O. Every segment write is taken to succeed.
- `youtube_to_text` apart from its title rule and output name: the URL check, `ensure_ytdlp`, `ytdlp_download_audio`, temporary-directory cleanup and transcription are network and filesystem plumbing.
