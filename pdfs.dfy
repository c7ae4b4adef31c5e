/** The PDF handlers of app.py: `pdf_merge` (app.py:105-122), which copies
    every page of every input into one writer, and the decision rules of
    `pdf_compress` (app.py:75-103). Parsing and saving PDFs is done by
    pypdf, pikepdf and qpdf; here a reader is a function from a file to its
    pages or an error, and the library results are parameters. */
module Pdfs {
  import opened Wrappers
  import opened Text
  import opened Paths
  import opened Sanitize
  import opened Concat

  /** pypdf's `PdfWriter` as `pdf_merge` uses it: the pages added so far. */
  class PdfWriter<P> {
    var pages: seq<P>

    constructor ()
      ensures pages == []
    {
      pages := [];
    }

    /** `writer.add_page(page)` */
    method AddPage(page: P)
      modifies this
      ensures pages == old(pages) + [page]
    {
      pages := pages + [page];
    }
  }

  /** Reading the inputs one after another: the pages of all of them, or the
      error of the first one that cannot be read. */
  function ReadPages<P>(files: seq<string>, read: string -> Result<seq<P>, string>): Result<seq<P>, string>
  {
    if files == [] then Success([])
    else
      match ReadPages(files[..|files| - 1], read)
      case Failure(e) => Failure(e)
      case Success(pages) =>
        match read(files[|files| - 1])
        case Failure(e) => Failure(e)
        case Success(more) => Success(pages + more)
  }

  predicate AllReadable<P>(files: seq<string>, read: string -> Result<seq<P>, string>)
  {
    forall k :: 0 <= k < |files| ==> read(files[k]).Success?
  }

  /** The page sequence of each input, in input order. */
  function Documents<P>(files: seq<string>, read: string -> Result<seq<P>, string>): (docs: seq<seq<P>>)
    requires AllReadable(files, read)
    ensures |docs| == |files|
  {
    seq(|files|, k requires 0 <= k < |files| && AllReadable(files, read) => read(files[k]).value)
  }

  /** Reading succeeds exactly when every input can be read, and then gives
      the pages of the inputs concatenated in input order. */
  lemma {:induction false} ReadPagesSuccess<P>(files: seq<string>, read: string -> Result<seq<P>, string>)
    ensures ReadPages(files, read).Success? <==> AllReadable(files, read)
    ensures ReadPages(files, read).Success? ==> ReadPages(files, read).value == Flatten(Documents(files, read))
  {
    if files != [] {
      var n := |files| - 1;
      ReadPagesSuccess(files[..n], read);
      if AllReadable(files, read) {
        assert AllReadable(files[..n], read);
        assert Documents(files, read)[..n] == Documents(files[..n], read);
      } else if AllReadable(files[..n], read) {
        assert !read(files[n]).Success?;
      }
    }
  }

  /** A failed read reports the error of the first input that cannot be read. */
  lemma {:induction false} ReadPagesFailure<P>(files: seq<string>, read: string -> Result<seq<P>, string>)
    returns (k: nat)
    requires ReadPages(files, read).Failure?
    ensures k < |files| && read(files[k]) == Failure(ReadPages(files, read).error)
    ensures forall j :: 0 <= j < k ==> read(files[j]).Success?
  {
    var n := |files| - 1;
    if ReadPages(files[..n], read).Failure? {
      k := ReadPagesFailure(files[..n], read);
    } else {
      ReadPagesSuccess(files[..n], read);
      k := n;
    }
  }

  /** Once a prefix of the inputs fails, the whole read fails with its error. */
  lemma {:induction false} ReadPagesFailureStays<P>(files: seq<string>, read: string -> Result<seq<P>, string>, i: nat)
    requires i <= |files| && ReadPages(files[..i], read).Failure?
    ensures ReadPages(files, read) == ReadPages(files[..i], read)
  {
    if i < |files| {
      var n := |files| - 1;
      assert files[..n][..i] == files[..i];
      ReadPagesFailureStays(files[..n], read, i);
    } else {
      assert files[..i] == files;
    }
  }

  /** Reading one more input, as the loop does. */
  lemma ReadPagesStep<P>(files: seq<string>, read: string -> Result<seq<P>, string>, i: nat)
    requires i < |files|
    ensures ReadPages(files[..i + 1], read) ==
      match ReadPages(files[..i], read)
      case Failure(e) => Failure(e)
      case Success(pages) =>
        match read(files[i])
        case Failure(e) => Failure(e)
        case Success(more) => Success(pages + more)
  {
    assert files[..i + 1][..i] == files[..i];
  }

  /** `{base}_{timestamp}.pdf`, the name of a merged or compressed file. */
  function PdfOutputName(baseName: Option<string>, fallback: string, stamp: string): string
  {
    BaseName(baseName, fallback) + "_" + stamp + ".pdf"
  }

  /** `pdf_merge`: the message shown, and the pages handed to the file
      writer (`None` when nothing is written). `write` stands for opening
      the output file and `writer.write`, giving the error if one is raised. */
  method PdfMerge<P>(files: seq<string>, baseName: Option<string>, stamp: string,
                     read: string -> Result<seq<P>, string>,
                     write: (string, seq<P>) -> Option<string>)
    returns (message: string, written: Option<seq<P>>)
    ensures |files| < 2 ==> message == "Provide at least two PDFs." && written == None
    ensures |files| >= 2 && ReadPages(files, read).Failure? ==>
      message == "Merge failed: " + ReadPages(files, read).error && written == None
    ensures |files| >= 2 && ReadPages(files, read).Success? ==>
      var name := PdfOutputName(baseName, "merged", stamp);
      && written == Some(ReadPages(files, read).value)
      && message == match write(name, written.value)
                    case Some(e) => "Merge failed: " + e
                    case None => "Saved: " + FileName(name)
  {
    if |files| < 2 {
      return "Provide at least two PDFs.", None;
    }
    var name := PdfOutputName(baseName, "merged", stamp);
    var writer := new PdfWriter<P>();
    var i := 0;
    while i < |files|
      invariant 0 <= i <= |files|
      invariant ReadPages(files[..i], read) == Success(writer.pages)
    {
      ReadPagesStep(files, read, i);
      var doc := read(files[i]);
      if doc.Failure? {
        ReadPagesFailureStays(files, read, i + 1);
        return "Merge failed: " + doc.error, None;
      }
      var pages := doc.value;
      ghost var before := writer.pages;
      var j := 0;
      while j < |pages|
        invariant 0 <= j <= |pages|
        invariant writer.pages == before + pages[..j]
      {
        writer.AddPage(pages[j]);
        j := j + 1;
      }
      assert pages[..j] == pages;
      i := i + 1;
    }
    assert files[..i] == files;
    written := Some(writer.pages);
    match write(name, writer.pages) {
      case Some(e) =>
        message := "Merge failed: " + e;
      case None =>
        message := "Saved: " + FileName(name);
    }
  }

  /** `(quality or "medium").lower()` */
  function CompressionLevel(quality: Option<string>): (level: string)
    ensures IsBlank(quality) ==> level == "medium"
    ensures !IsBlank(quality) ==> level == Lower(quality.value)
  {
    Lower(if IsBlank(quality) then "medium" else quality.value)
  }

  /** The keyword arguments of pikepdf's `save`. */
  datatype SaveSettings = SaveSettings(linearize: bool, compressStreams: bool, recompressFlate: bool)

  function Settings(level: string): SaveSettings
  {
    SaveSettings(true, true, level in ["medium", "low"])
  }

  /** Whether the qpdf tool is available, and if it ran, the size of the
      file it produced (`None` when it produced none). */
  datatype QpdfRun = NotInstalled | Ran(tmpSize: Option<nat>)

  /** The qpdf output replaces the pikepdf output exactly when it exists
      and is no larger. */
  predicate KeepQpdfOutput(tmpSize: Option<nat>, outSize: nat)
  {
    tmpSize.Some? && tmpSize.value <= outSize
  }

  /** The size of the file left under the output name. */
  function FinalSize(outSize: nat, qpdf: QpdfRun): nat
  {
    if qpdf.Ran? && KeepQpdfOutput(qpdf.tmpSize, outSize) then qpdf.tmpSize.value else outSize
  }

  /** Keeping the smaller file: the result is the smaller of the two sizes
      when qpdf produced a file, and the pikepdf size otherwise. */
  lemma FinalSizeIsSmaller(outSize: nat, qpdf: QpdfRun)
    ensures FinalSize(outSize, qpdf) <= outSize
    ensures qpdf.Ran? && qpdf.tmpSize.Some? ==> FinalSize(outSize, qpdf) <= qpdf.tmpSize.value
    ensures FinalSize(outSize, qpdf) == outSize || (qpdf.Ran? && qpdf.tmpSize == Some(FinalSize(outSize, qpdf)))
  {
  }

  /** Flate streams are recompressed unless the chosen level is something
      other than medium or low; a blank choice means medium. */
  lemma RecompressByQuality(quality: Option<string>)
    ensures Settings(CompressionLevel(quality)).recompressFlate <==>
      IsBlank(quality) || Lower(quality.value) in ["medium", "low"]
    ensures Settings(CompressionLevel(quality)).linearize && Settings(CompressionLevel(quality)).compressStreams
    ensures quality == Some("high") ==> !Settings(CompressionLevel(quality)).recompressFlate
  {
    if quality == Some("high") {
      assert Lower("high") == "high";
    }
  }

  /** `pdf_compress`: the message shown and the size of the file left
      behind (`None` when none is). `save` stands for pikepdf opening the
      input and saving it with the settings, giving the size written or
      the error raised; `qpdf` for the optional second pass. */
  function PdfCompress(file: Option<string>, baseName: Option<string>, quality: Option<string>,
                       stamp: string, save: (string, SaveSettings) -> Result<nat, string>,
                       qpdf: QpdfRun): (r: (string, Option<nat>))
  {
    if file.None? then ("No PDF provided.", None)
    else
      var name := PdfOutputName(baseName, "compressed", stamp);
      match save(file.value, Settings(CompressionLevel(quality)))
      case Failure(e) => ("Compression failed: " + e, None)
      case Success(outSize) => ("Saved: " + FileName(name), Some(FinalSize(outSize, qpdf)))
  }

  /** What `pdf_compress` reports: no input, a failed save, or the saved
      file, which is never larger than what pikepdf wrote. */
  lemma PdfCompressOutcome(file: Option<string>, baseName: Option<string>, quality: Option<string>,
                           stamp: string, save: (string, SaveSettings) -> Result<nat, string>, qpdf: QpdfRun)
    ensures var (message, size) := PdfCompress(file, baseName, quality, stamp, save, qpdf);
      && (message == "No PDF provided." <==> file.None?)
      && (size.Some? <==> file.Some? && save(file.value, Settings(CompressionLevel(quality))).Success?)
      && (size.Some? ==> size.value <= save(file.value, Settings(CompressionLevel(quality))).value)
      && (file.Some? && size.None? ==>
            message == "Compression failed: " + save(file.value, Settings(CompressionLevel(quality))).error)
      && (size.Some? ==> message == "Saved: " + FileName(PdfOutputName(baseName, "compressed", stamp)))
  {
    if file.Some? {
      match save(file.value, Settings(CompressionLevel(quality)))
      case Failure(e) =>
        assert ("Compression failed: " + e)[0] != "No PDF provided."[0];
      case Success(outSize) =>
        var name := PdfOutputName(baseName, "compressed", stamp);
        assert ("Saved: " + FileName(name))[0] != "No PDF provided."[0];
        FinalSizeIsSmaller(outSize, qpdf);
    }
  }
}
