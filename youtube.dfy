/** The naming rule of `youtube_to_text` (app.py:228-253): the video title
    is sanitised and cut to at most 80 characters before it goes into the
    transcript's file name. Downloading and transcribing are not modelled. */
module Youtube {
  import opened Wrappers
  import opened Paths
  import opened Sanitize

  /** The longest title kept in a file name. */
  const TITLE_LIMIT := 80

  /** `sanitize_name(title)[:80] or "video"` */
  function CleanTitle(title: Option<string>): string
  {
    var t := SanitizeName(title);
    var cut := if |t| <= TITLE_LIMIT then t else t[..TITLE_LIMIT];
    if cut == "" then "video" else cut
  }

  /** The `"video"` fallback is never taken: the clean title is always the
      first (at most 80) characters of the sanitised title, so it is
      non-empty, made of allowed characters and does not start with `_`. */
  lemma TitleFallbackUnreachable(title: Option<string>)
    ensures var t := SanitizeName(title);
      CleanTitle(title) == t[..if |t| <= TITLE_LIMIT then |t| else TITLE_LIMIT]
    ensures 0 < |CleanTitle(title)| <= TITLE_LIMIT
    ensures forall i :: 0 <= i < |CleanTitle(title)| ==> Allowed(CleanTitle(title)[i])
    ensures CleanTitle(title)[0] != '_'
  {
    var t := SanitizeName(title);
    SanitizeIsClean(title);
    assert t[..|t|] == t;
  }

  /** A title that sanitises to at most 80 characters is kept whole. */
  lemma ShortTitleKept(title: Option<string>)
    requires |SanitizeName(title)| <= TITLE_LIMIT
    ensures CleanTitle(title) == SanitizeName(title)
  {
    SanitizeIsClean(title);
  }

  /** `{base}_{clean title}_{timestamp}.txt` */
  function TranscriptName(baseName: Option<string>, title: Option<string>, stamp: string): string
  {
    BaseName(baseName, "youtube_transcript") + "_" + CleanTitle(title) + "_" + stamp + ".txt"
  }

  /** Neither the base nor the clean title can add a separator: for a
      timestamp without `/`, the transcript name has none, so it is written
      directly into the videos folder and is its own `Path.name`. */
  lemma TranscriptNameStaysInFolder(baseName: Option<string>, title: Option<string>, stamp: string)
    requires '/' !in stamp
    ensures var n := TranscriptName(baseName, title, stamp);
      '/' !in n && FileName(n) == n
  {
    var b := BaseName(baseName, "youtube_transcript");
    var t := CleanTitle(title);
    var n := TranscriptName(baseName, title, stamp);
    TitleFallbackUnreachable(title);
    assert '/' !in b by {
      if IsBlank(baseName) {
        assert b == "youtube_transcript";
      } else {
        assert forall i :: 0 <= i < |b| ==> Allowed(b[i]);
      }
    }
    assert '/' !in t;
    assert n == b + "_" + t + "_" + stamp + ".txt";
    FileNameHasNoSlash(n);
  }
}
