/** The per-file decisions of `image_convert` (app.py:37-67): target
    format, image-type check, output name, save options and log line.
    Decoding and encoding are done by an image library; here they are one
    abstract `codec` that receives the job planned for a file and reports
    how it went. */
module Images {
  import opened Wrappers
  import opened Text
  import opened Paths
  import opened Sanitize

  /** The source suffixes accepted as images (app.py:26). */
  const IMAGE_FORMATS: seq<string> := ["jpg", "jpeg", "png", "webp", "bmp", "tiff"]

  /** `(target_format or "").lower()`, with `jpg` renamed to `jpeg`. */
  function TargetFormat(target: Option<string>): (fmt: string)
    ensures fmt != "jpg"
    ensures fmt == "jpeg" <==> Lower(OrEmpty(target)) in ["jpg", "jpeg"]
    ensures fmt != "jpeg" ==> fmt == Lower(OrEmpty(target))
  {
    var f := Lower(OrEmpty(target));
    if f == "jpg" then "jpeg" else f
  }

  /** `src_path.suffix.lower().lstrip(".")` */
  function SourceExtension(path: string): string
  {
    TrimLeft(Lower(Suffix(FileName(path))), {'.'})
  }

  predicate IsImageType(path: string)
  {
    SourceExtension(path) in IMAGE_FORMATS
  }

  /** The extension checked against `IMAGE_FORMATS` is the file name's
      suffix without its dot, lower-cased, and empty when the name has no
      suffix. */
  lemma SourceExtensionOfSuffix(path: string)
    ensures var x := Suffix(FileName(path));
      SourceExtension(path) == (if x == "" then "" else Lower(x[1..]))
  {
    var x := Suffix(FileName(path));
    var l := Lower(x);
    StemAndSuffix(FileName(path));
    TrimLeftSuffix(l, {'.'});
    TrimLeftDrops(l, {'.'});
    if x != "" {
      var r := TrimLeft(l, {'.'});
      assert l[0] == '.';
      assert forall k :: 1 <= k < |l| ==> l[k] != '.' by {
        forall k | 1 <= k < |l| ensures l[k] != '.' {
          assert x[k] == x[1..][k - 1];
        }
      }
      assert |r| == |l| - 1;
      assert r == Lower(x[1..]);
    }
  }

  /** Keyword arguments passed to the encoder: fixed quality and effort for WebP. */
  function SaveOptions(fmt: string): map<string, int>
  {
    if fmt == "webp" then map["quality" := 90, "method" := 6] else map[]
  }

  /** `{base}_{sanitized stem}_{idx}_{timestamp}.{fmt}` */
  function OutputName(base: string, path: string, idx: nat, stamp: string, fmt: string): string
  {
    IndexedName(base + "_" + SanitizeName(Some(Stem(FileName(path)))), idx, "_" + stamp + "." + fmt)
  }

  /** What the library is asked to do for one file: open `source`
      (converting to RGB when `forceRgb`), then save it as `outName`
      in `format` with `options`. */
  datatype ImageJob = ImageJob(
    source: string,
    forceRgb: bool,
    outName: string,
    format: string,
    options: map<string, int>)

  /** How the library call went: the file was written, the image was not
      recognised (`UnidentifiedImageError`), or another exception. */
  datatype CodecOutcome = Written | Unidentified | Failed(message: string)

  datatype FilePlan = NotAnImage | Convert(job: ImageJob)

  /** The decision taken for the `idx`-th file (numbered from 1). */
  function PlanFile(path: string, idx: nat, fmt: string, base: string, stamp: string): FilePlan
  {
    if !IsImageType(path) then NotAnImage
    else Convert(ImageJob(path, fmt in ["jpeg", "jpg"], OutputName(base, path, idx, stamp, fmt),
                          Upper(fmt), SaveOptions(fmt)))
  }

  /** The log line appended for one file. */
  function LogLine(path: string, plan: FilePlan, codec: ImageJob -> CodecOutcome): string
  {
    match plan
    case NotAnImage => "Skipped (not an image type): " + FileName(path)
    case Convert(job) =>
      match codec(job)
      case Written => "Saved: " + FileName(job.outName)
      case Unidentified => "Skipped (unrecognized image): " + FileName(path)
      case Failed(e) => "Error for " + FileName(path) + ": " + e
  }

  /** A string with prefix `p` has no prefix `q` that disagrees with `p` at
      some position `i`. */
  lemma PrefixesClash(p: string, q: string, r: string, i: nat)
    requires i < |p| && i < |q| && p[i] != q[i] && p <= r
    ensures !(q <= r)
  {
    assert r[i] == p[i];
  }

  /** Which of the three prefixes the line of a given outcome has. */
  lemma LinePrefixes(head: string, tail: string)
    requires head in ["Saved: ", "Skipped (", "Error for "]
    ensures var r := head + tail;
      && ("Saved: " <= r <==> head == "Saved: ")
      && ("Skipped (" <= r <==> head == "Skipped (")
      && ("Error for " <= r <==> head == "Error for ")
  {
    var r := head + tail;
    assert head <= r;
    if head == "Saved: " {
      PrefixesClash(head, "Skipped (", r, 1);
      PrefixesClash(head, "Error for ", r, 0);
    } else if head == "Skipped (" {
      PrefixesClash(head, "Saved: ", r, 1);
      PrefixesClash(head, "Error for ", r, 0);
    } else {
      PrefixesClash(head, "Saved: ", r, 0);
      PrefixesClash(head, "Skipped (", r, 0);
    }
  }

  /** A file skipped before or by the library gets a `Skipped` line. */
  lemma SkippedLine(path: string, plan: FilePlan, codec: ImageJob -> CodecOutcome)
    requires plan.NotAnImage? || codec(plan.job).Unidentified?
    ensures var r := LogLine(path, plan, codec);
      "Skipped (" <= r && !("Saved: " <= r) && !("Error for " <= r)
  {
    var r := LogLine(path, plan, codec);
    var head := if plan.NotAnImage? then "Skipped (not an image type): " else "Skipped (unrecognized image): ";
    assert r == head + FileName(path);
    assert "Skipped (" <= head;
    assert "Skipped (" <= r;
    PrefixesClash("Skipped (", "Saved: ", r, 1);
    PrefixesClash("Skipped (", "Error for ", r, 0);
  }

  /** A file the library wrote gets a `Saved` line. */
  lemma SavedLine(path: string, plan: FilePlan, codec: ImageJob -> CodecOutcome)
    requires plan.Convert? && codec(plan.job).Written?
    ensures var r := LogLine(path, plan, codec);
      "Saved: " <= r && !("Skipped (" <= r) && !("Error for " <= r)
  {
    LinePrefixes("Saved: ", FileName(plan.job.outName));
  }

  /** A file the library failed on gets an `Error for` line. */
  lemma ErrorLine(path: string, plan: FilePlan, codec: ImageJob -> CodecOutcome)
    requires plan.Convert? && codec(plan.job).Failed?
    ensures var r := LogLine(path, plan, codec);
      "Error for " <= r && !("Saved: " <= r) && !("Skipped (" <= r)
  {
    var tail := FileName(path) + ": " + codec(plan.job).message;
    assert LogLine(path, plan, codec) == "Error for " + tail;
    LinePrefixes("Error for ", tail);
  }

  /** The line tells how the file went: it starts with `Saved` exactly
      when the library wrote the converted file, with `Skipped` exactly when
      the file is not an image type or the library did not recognise it, and
      with `Error for` exactly when the library failed. */
  lemma LogLineOutcome(path: string, plan: FilePlan, codec: ImageJob -> CodecOutcome)
    ensures var r := LogLine(path, plan, codec);
      && ("Saved: " <= r <==> plan.Convert? && codec(plan.job).Written?)
      && ("Skipped (" <= r <==> plan.NotAnImage? || codec(plan.job).Unidentified?)
      && ("Error for " <= r <==> plan.Convert? && codec(plan.job).Failed?)
  {
    if plan.NotAnImage? || codec(plan.job).Unidentified? {
      SkippedLine(path, plan, codec);
    } else if codec(plan.job).Written? {
      SavedLine(path, plan, codec);
    } else {
      ErrorLine(path, plan, codec);
    }
  }

  /** Every file's plan; `clock(idx)` is the timestamp read while handling file `idx`. */
  function Plans(files: seq<string>, fmt: string, base: string, clock: nat -> string): (plans: seq<FilePlan>)
    ensures |plans| == |files|
  {
    seq(|files|, i requires 0 <= i < |files| => PlanFile(files[i], i + 1, fmt, base, clock(i + 1)))
  }

  function Logs(files: seq<string>, plans: seq<FilePlan>, codec: ImageJob -> CodecOutcome): (logs: seq<string>)
    requires |plans| == |files|
    ensures |logs| == |files|
  {
    seq(|files|, i requires 0 <= i < |files| => LogLine(files[i], plans[i], codec))
  }

  /** The jobs handed to the library, in file order. */
  function Jobs(plans: seq<FilePlan>): seq<ImageJob>
  {
    if plans == [] then []
    else Jobs(plans[..|plans| - 1]) + (if plans[|plans| - 1].Convert? then [plans[|plans| - 1].job] else [])
  }

  /** `"\n".join(logs) or "Done."` */
  function Report(logs: seq<string>): string
  {
    var joined := Join(logs, "\n");
    if joined == "" then "Done." else joined
  }
}
