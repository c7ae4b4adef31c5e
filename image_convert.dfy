/** `image_convert` (app.py:37-67) itself: the loop over the files that
    appends one log line per file, and what it guarantees. */
module ImageConvert {
  import opened Wrappers
  import opened Text
  import opened Paths
  import opened Sanitize
  import opened Images

  /** The body of the loop for the `idx`-th file: the log line it appends
      and the job, if any, it hands to the library. */
  method HandleFile(path: string, idx: nat, fmt: string, base: string, stamp: string,
                    codec: ImageJob -> CodecOutcome)
    returns (line: string, job: Option<ImageJob>)
    ensures var plan := PlanFile(path, idx, fmt, base, stamp);
      && line == LogLine(path, plan, codec)
      && job == (if plan.Convert? then Some(plan.job) else None)
  {
    var plan := PlanFile(path, idx, fmt, base, stamp);
    if plan.NotAnImage? {
      line := "Skipped (not an image type): " + FileName(path);
      job := None;
      return;
    }
    job := Some(plan.job);
    match codec(plan.job) {
      case Written =>
        line := "Saved: " + FileName(plan.job.outName);
      case Unidentified =>
        line := "Skipped (unrecognized image): " + FileName(path);
      case Failed(e) =>
        line := "Error for " + FileName(path) + ": " + e;
    }
  }

  /** The handler: returns its message, the log lines and the library jobs. */
  method ImageConvert(files: seq<string>, target: Option<string>, baseName: Option<string>,
                      clock: nat -> string, codec: ImageJob -> CodecOutcome)
    returns (report: string, logs: seq<string>, jobs: seq<ImageJob>)
    ensures files == [] ==> report == "No images provided." && logs == [] && jobs == []
    ensures files != [] ==>
      var plans := Plans(files, TargetFormat(target), BaseName(baseName, "converted"), clock);
      && logs == Logs(files, plans, codec)
      && jobs == Jobs(plans)
      && report == Report(logs)
  {
    if files == [] {
      return "No images provided.", [], [];
    }
    var fmt := TargetFormat(target);
    var base := BaseName(baseName, "converted");
    ghost var plans := Plans(files, fmt, base, clock);
    logs, jobs := [], [];
    var i := 0;
    while i < |files|
      invariant 0 <= i <= |files|
      invariant logs == Logs(files, plans, codec)[..i]
      invariant jobs == Jobs(plans[..i])
    {
      var line, job := HandleFile(files[i], i + 1, fmt, base, clock(i + 1), codec);
      PlanAt(files, fmt, base, clock, i);
      JobsStep(plans, i);
      LogsStep(files, plans, codec, i);
      logs := logs + [line];
      if job.Some? {
        jobs := jobs + [job.value];
      }
      i := i + 1;
    }
    assert plans[..|files|] == plans;
    assert Logs(files, plans, codec)[..|files|] == Logs(files, plans, codec);
    var joined := Join(logs, "\n");
    report := if joined == "" then "Done." else joined;
  }

  /** The plan of the `i`-th file, as the loop computes it. */
  lemma PlanAt(files: seq<string>, fmt: string, base: string, clock: nat -> string, i: nat)
    requires i < |files|
    ensures Plans(files, fmt, base, clock)[i] == PlanFile(files[i], i + 1, fmt, base, clock(i + 1))
  {
  }

  /** Handling one more plan adds its job, if any, at the end. */
  lemma JobsStep(plans: seq<FilePlan>, i: nat)
    requires i < |plans|
    ensures Jobs(plans[..i + 1]) == Jobs(plans[..i]) + (if plans[i].Convert? then [plans[i].job] else [])
  {
    assert plans[..i + 1][..i] == plans[..i];
  }

  /** Handling one more file adds its log line at the end. */
  lemma LogsStep(files: seq<string>, plans: seq<FilePlan>, codec: ImageJob -> CodecOutcome, i: nat)
    requires i < |files| == |plans|
    ensures Logs(files, plans, codec)[..i + 1] == Logs(files, plans, codec)[..i] + [LogLine(files[i], plans[i], codec)]
  {
    var logs := Logs(files, plans, codec);
    assert logs[i] == LogLine(files[i], plans[i], codec);
    assert logs[..i + 1] == logs[..i] + [logs[i]];
  }

  /** A non-empty batch never reports "Done.": its first log line leads the report. */
  lemma ReportNeverDone(files: seq<string>, plans: seq<FilePlan>, codec: ImageJob -> CodecOutcome)
    requires files != [] && |plans| == |files|
    ensures var r := Report(Logs(files, plans, codec));
      r != "Done." && Logs(files, plans, codec)[0] <= r
  {
    var logs := Logs(files, plans, codec);
    var line := logs[0];
    assert line == LogLine(files[0], plans[0], codec);
    JoinStartsWithFirst(logs, "\n");
  }

  /** The files whose suffix names an image type, in input order. */
  function ImageFiles(files: seq<string>): seq<string>
  {
    if files == [] then []
    else ImageFiles(files[..|files| - 1]) + (if IsImageType(files[|files| - 1]) then [files[|files| - 1]] else [])
  }

  /** The file each job reads, in job order. */
  function Sources(jobs: seq<ImageJob>): (paths: seq<string>)
    ensures |paths| == |jobs|
  {
    seq(|jobs|, k requires 0 <= k < |jobs| => jobs[k].source)
  }

  lemma SourcesAppend(a: seq<ImageJob>, b: seq<ImageJob>)
    ensures Sources(a + b) == Sources(a) + Sources(b)
  {
    assert forall k :: 0 <= k < |a + b| ==> Sources(a + b)[k] == (Sources(a) + Sources(b))[k];
  }

  /** What every job planned under target format `fmt` looks like. */
  predicate JobFits(job: ImageJob, fmt: string)
  {
    && IsImageType(job.source)
    && job.forceRgb == (fmt in ["jpeg", "jpg"])
    && job.format == Upper(fmt)
    && job.options == SaveOptions(fmt)
  }

  /** A file is converted exactly when it is image-typed, and then with a fitting job. */
  lemma PlanFacts(path: string, idx: nat, fmt: string, base: string, stamp: string)
    ensures PlanFile(path, idx, fmt, base, stamp).Convert? <==> IsImageType(path)
    ensures PlanFile(path, idx, fmt, base, stamp).Convert? ==>
      PlanFile(path, idx, fmt, base, stamp).job.source == path
      && JobFits(PlanFile(path, idx, fmt, base, stamp).job, fmt)
  {
  }

  /** The settings of a job, stated against the target the user chose:
      RGB is forced exactly for a `jpg` or `jpeg` target (in any case), the
      library is asked for JPEG in that case and for the upper-cased target
      otherwise, and only a WebP target gets quality 90 and method 6. */
  lemma PlanSettings(path: string, idx: nat, target: Option<string>, base: string, stamp: string)
    ensures var t := Lower(OrEmpty(target));
      var plan := PlanFile(path, idx, TargetFormat(target), base, stamp);
      && (plan.Convert? <==> IsImageType(path))
      && (plan.Convert? ==>
            && plan.job.source == path
            && (plan.job.forceRgb <==> t in ["jpg", "jpeg"])
            && plan.job.format == (if t in ["jpg", "jpeg"] then "JPEG" else Upper(t))
            && plan.job.options == (if t == "webp" then map["quality" := 90, "method" := 6] else map[]))
  {
    var t := Lower(OrEmpty(target));
    var fmt := TargetFormat(target);
    if t in ["jpg", "jpeg"] {
      assert fmt == "jpeg";
      assert Upper(fmt) == "JPEG";
    } else {
      assert fmt == t;
    }
  }

  /** The library reads exactly the image-typed files, each input once and
      in input order. */
  lemma {:induction false} JobSources(files: seq<string>, fmt: string, base: string, clock: nat -> string)
    ensures Sources(Jobs(Plans(files, fmt, base, clock))) == ImageFiles(files)
  {
    if files != [] {
      var n := |files| - 1;
      var plans := Plans(files, fmt, base, clock);
      assert plans[..n] == Plans(files[..n], fmt, base, clock);
      JobSources(files[..n], fmt, base, clock);
      PlanAt(files, fmt, base, clock, n);
      var extra := if plans[n].Convert? then [plans[n].job] else [];
      assert Sources(extra) == if IsImageType(files[n]) then [files[n]] else [];
      assert Jobs(plans) == Jobs(plans[..n]) + extra;
      SourcesAppend(Jobs(plans[..n]), extra);
    }
  }

  /** Every job reads one of the inputs and carries the settings of the
      target format. */
  lemma {:induction false} JobsFit(files: seq<string>, fmt: string, base: string, clock: nat -> string)
    ensures forall job :: job in Jobs(Plans(files, fmt, base, clock)) ==> job.source in files && JobFits(job, fmt)
  {
    if files != [] {
      var n := |files| - 1;
      var plans := Plans(files, fmt, base, clock);
      assert plans[..n] == Plans(files[..n], fmt, base, clock);
      JobsFit(files[..n], fmt, base, clock);
      PlanAt(files, fmt, base, clock, n);
      PlanFacts(files[n], n + 1, fmt, base, clock(n + 1));
    }
  }

  /** Both facts about the jobs of one batch. */
  lemma JobsAreImages(files: seq<string>, fmt: string, base: string, clock: nat -> string)
    ensures Sources(Jobs(Plans(files, fmt, base, clock))) == ImageFiles(files)
    ensures forall job :: job in Jobs(Plans(files, fmt, base, clock)) ==> job.source in files && JobFits(job, fmt)
  {
    JobSources(files, fmt, base, clock);
    JobsFit(files, fmt, base, clock);
  }

  /** Output names `x` and `y` of files with different indexes differ
      when their timestamps have the same length. */
  lemma OutputNamesDiffer(x: string, y: string, base: string, pa: string, pb: string,
                          a: nat, b: nat, ta: string, tb: string, fmt: string)
    requires a != b && |ta| == |tb|
    requires x == OutputName(base, pa, a, ta, fmt) && y == OutputName(base, pb, b, tb, fmt)
    ensures x != y
  {
    IndexedNamesDiffer(base + "_" + SanitizeName(Some(Stem(FileName(pa)))),
                       base + "_" + SanitizeName(Some(Stem(FileName(pb)))),
                       a, b, "_" + ta + "." + fmt, "_" + tb + "." + fmt);
  }

  /** The output name planned for file `a`. */
  lemma PlannedName(files: seq<string>, fmt: string, base: string, clock: nat -> string, a: nat)
    requires a < |files| && Plans(files, fmt, base, clock)[a].Convert?
    ensures Plans(files, fmt, base, clock)[a].job.outName == OutputName(base, files[a], a + 1, clock(a + 1), fmt)
  {
  }

  /** Two converted files of one call with equal-length timestamps get different names. */
  lemma PlannedNamesDiffer(files: seq<string>, fmt: string, base: string, clock: nat -> string, a: nat, b: nat)
    requires a < b < |files| && |clock(a + 1)| == |clock(b + 1)|
    requires Plans(files, fmt, base, clock)[a].Convert? && Plans(files, fmt, base, clock)[b].Convert?
    ensures Plans(files, fmt, base, clock)[a].job.outName != Plans(files, fmt, base, clock)[b].job.outName
  {
    PlannedName(files, fmt, base, clock, a);
    PlannedName(files, fmt, base, clock, b);
    OutputNamesDiffer(Plans(files, fmt, base, clock)[a].job.outName, Plans(files, fmt, base, clock)[b].job.outName,
                      base, files[a], files[b], a + 1, b + 1, clock(a + 1), clock(b + 1), fmt);
  }

  /** Within one call, two converted files never get the same output name,
      provided every timestamp the clock gives has the same length (as
      `%Y%m%d_%H%M%S` does). */
  lemma DistinctOutputNames(files: seq<string>, fmt: string, base: string, clock: nat -> string)
    requires forall n: nat :: |clock(n)| == |clock(0)|
    ensures var plans := Plans(files, fmt, base, clock);
      forall a, b :: 0 <= a < b < |plans| && plans[a].Convert? && plans[b].Convert? ==>
        plans[a].job.outName != plans[b].job.outName
  {
    forall a, b | 0 <= a < b < |files| && Plans(files, fmt, base, clock)[a].Convert? && Plans(files, fmt, base, clock)[b].Convert?
      ensures Plans(files, fmt, base, clock)[a].job.outName != Plans(files, fmt, base, clock)[b].job.outName
    {
      assert |clock(a + 1)| == |clock(0)| == |clock(b + 1)|;
      PlannedNamesDiffer(files, fmt, base, clock, a, b);
    }
  }
}
