/**
 * `_detect_media_type`: what kind of send a piece of content calls for.  Only
 * `http://` and `https://` links are media; their kind comes from the extension,
 * compared after lower-casing.
 */
module Media {
  import opened Str

  datatype MediaType = Text | Img | Video | File | Unsupported

  /** The link schemes, compared case-sensitively. */
  const Schemes: seq<string> := ["http://", "https://"]

  /** Extensions sent as an image. */
  const ImageExts: seq<string> := [".jpg", ".jpeg", ".png", ".gif", ".img"]

  /** Extensions sent as a video; `.pdf` is among them. */
  const VideoExts: seq<string> := [".mp4", ".avi", ".mov", ".pdf"]

  /** Extensions sent as a file. */
  const FileExts: seq<string> := [".doc", ".docx", ".xls", ".xlsx", ".zip", ".rar", ".txt", ".csv"]

  /** `s.startswith(("http://", "https://"))`. */
  predicate IsUrl(s: string) {
    exists k :: 0 <= k < |Schemes| && StartsWith(s, Schemes[k])
  }

  /** `s.endswith(tuple(exts))`. */
  predicate EndsWithAny(s: string, exts: seq<string>) {
    exists k :: 0 <= k < |exts| && EndsWith(s, exts[k])
  }

  /** `_detect_media_type`: the tests run in the order image, video, file. */
  function DetectMediaType(content: string): (t: MediaType)
    ensures t == Text <==> !IsUrl(content)
  {
    if IsUrl(content) then
      var lower := Lower(content);
      if EndsWithAny(lower, ImageExts) then Img
      else if EndsWithAny(lower, VideoExts) then Video
      else if EndsWithAny(lower, FileExts) then File
      else Unsupported
    else Text
  }

  // ---------------------------------------------------------------------------
  // The three extension lists never claim the same text

  /** The last two characters of an extension. */
  function Ending(s: string): string
    requires |s| >= 2
  {
    s[|s| - 2..]
  }

  predicate ImageEnding(e: string) {
    e in {"pg", "eg", "ng", "if", "mg"}
  }

  predicate VideoEnding(e: string) {
    e in {"p4", "vi", "ov", "df"}
  }

  predicate FileEnding(e: string) {
    e in {"oc", "cx", "ls", "sx", "ip", "ar", "xt", "sv"}
  }

  /** A text ending in an extension of at least two characters shares that extension's ending. */
  lemma EndingOf(s: string, ext: string)
    requires |ext| >= 2 && EndsWith(s, ext)
    ensures |s| >= 2 && Ending(s) == Ending(ext)
  {
    assert Ending(s) == s[|s| - |ext|..][|ext| - 2..];
  }

  lemma ImageEndings(s: string)
    requires EndsWithAny(s, ImageExts)
    ensures |s| >= 2 && ImageEnding(Ending(s))
  {
    var k :| 0 <= k < |ImageExts| && EndsWith(s, ImageExts[k]);
    EndingOf(s, ImageExts[k]);
  }

  lemma VideoEndings(s: string)
    requires EndsWithAny(s, VideoExts)
    ensures |s| >= 2 && VideoEnding(Ending(s))
  {
    var k :| 0 <= k < |VideoExts| && EndsWith(s, VideoExts[k]);
    EndingOf(s, VideoExts[k]);
  }

  lemma FileEndings(s: string)
    requires EndsWithAny(s, FileExts)
    ensures |s| >= 2 && FileEnding(Ending(s))
  {
    var k :| 0 <= k < |FileExts| && EndsWith(s, FileExts[k]);
    EndingOf(s, FileExts[k]);
  }

  /** No text ends in extensions of two different kinds. */
  lemma ExtensionsDisjoint(s: string)
    ensures !(EndsWithAny(s, ImageExts) && EndsWithAny(s, VideoExts))
    ensures !(EndsWithAny(s, ImageExts) && EndsWithAny(s, FileExts))
    ensures !(EndsWithAny(s, VideoExts) && EndsWithAny(s, FileExts))
  {
    if EndsWithAny(s, ImageExts) {
      ImageEndings(s);
    }
    if EndsWithAny(s, VideoExts) {
      VideoEndings(s);
    }
    if EndsWithAny(s, FileExts) {
      FileEndings(s);
    }
  }

  /**
   * The classification of a link does not depend on the order of the tests: a
   * link is an image, a video or a file exactly when its lower-cased text ends in
   * an extension of that kind, and unsupported when it ends in none.
   */
  lemma ClassifyLink(content: string)
    requires IsUrl(content)
    ensures DetectMediaType(content) == Img <==> EndsWithAny(Lower(content), ImageExts)
    ensures DetectMediaType(content) == Video <==> EndsWithAny(Lower(content), VideoExts)
    ensures DetectMediaType(content) == File <==> EndsWithAny(Lower(content), FileExts)
    ensures DetectMediaType(content) == Unsupported <==>
      !EndsWithAny(Lower(content), ImageExts + VideoExts + FileExts)
  {
    var lower := Lower(content);
    ExtensionsDisjoint(lower);
    var all := ImageExts + VideoExts + FileExts;
    if EndsWithAny(lower, all) {
      var k :| 0 <= k < |all| && EndsWith(lower, all[k]);
      if k < |ImageExts| {
        assert EndsWith(lower, ImageExts[k]);
      } else if k < |ImageExts| + |VideoExts| {
        assert EndsWith(lower, VideoExts[k - |ImageExts|]);
      } else {
        assert EndsWith(lower, FileExts[k - |ImageExts| - |VideoExts|]);
      }
    } else {
      forall k | 0 <= k < |ImageExts| ensures !EndsWith(lower, ImageExts[k]) {
        assert all[k] == ImageExts[k];
      }
      forall k | 0 <= k < |VideoExts| ensures !EndsWith(lower, VideoExts[k]) {
        assert all[|ImageExts| + k] == VideoExts[k];
      }
      forall k | 0 <= k < |FileExts| ensures !EndsWith(lower, FileExts[k]) {
        assert all[|ImageExts| + |VideoExts| + k] == FileExts[k];
      }
    }
  }

  // ---------------------------------------------------------------------------
  // Classification by the way a link is written

  /** `lower()` works character by character, so it distributes over concatenation. */
  lemma LowerAppend(a: string, b: string)
    ensures Lower(a + b) == Lower(a) + Lower(b)
  {
  }

  /**
   * A link whose extension, in any letter case, is listed gets the kind of that
   * list, whatever comes between the scheme and the extension.
   */
  lemma ClassifyByExtension(scheme: string, path: string, ext: string)
    requires scheme in Schemes
    requires Lower(ext) in ImageExts + VideoExts + FileExts
    ensures Lower(ext) in ImageExts ==> DetectMediaType(scheme + path + ext) == Img
    ensures Lower(ext) in VideoExts ==> DetectMediaType(scheme + path + ext) == Video
    ensures Lower(ext) in FileExts ==> DetectMediaType(scheme + path + ext) == File
  {
    var link := scheme + path + ext;
    assert link[..|scheme|] == scheme;
    assert StartsWith(link, Schemes[0]) || StartsWith(link, Schemes[1]);
    LowerAppend(scheme + path, ext);
    var lower := Lower(link);
    assert EndsWith(lower, Lower(ext));
    ClassifyLink(link);
  }

  /** A link to a PDF document, in any letter case, is sent as a video. */
  lemma PdfIsVideo(scheme: string, path: string, ext: string)
    requires scheme in Schemes && Lower(ext) == ".pdf"
    ensures DetectMediaType(scheme + path + ext) == Video
  {
    assert Lower(ext) == VideoExts[3];
    ClassifyByExtension(scheme, path, ext);
  }

  /** The scheme test is case-sensitive: an upper-case scheme makes even an image link text. */
  lemma SchemeIsCaseSensitive(path: string)
    ensures DetectMediaType("HTTP://" + path + ".jpg") == Text
  {
    var link := "HTTP://" + path + ".jpg";
    assert link[0] == 'H';
  }
}
