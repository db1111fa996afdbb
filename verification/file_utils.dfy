/** File-name helpers of the web client: the MIME type of an extension and the
    video-file test (src/utils/fileUtils.ts). */
module FileUtils {
  import opened Strings

  const OctetStream := "application/octet-stream"

  /** The switch of `getMimeTypeFromExtension`, applied to the lower-cased extension. */
  function MimeTypeFromExtension(ext: string): (r: string)
  {
    var e := Lower(ext);
    if e == "mp4" then "video/mp4"
    else if e == "mkv" then "video/x-matroska"
    else if e == "webm" then "video/webm"
    else if e == "avi" then "video/x-msvideo"
    else if e == "mov" then "video/quicktime"
    else if e == "flv" then "video/x-flv"
    else if e == "wmv" then "video/x-ms-wmv"
    else if e == "mpeg" || e == "mpg" then "video/mpeg"
    else if e == "m4v" then "video/x-m4v"
    else if e == "3gp" then "video/3gpp"
    else if e == "ts" then "video/mp2t"
    else OctetStream
  }

  /** The extensions that have a case of their own in the switch. */
  const KnownExtensions: set<string> :=
    {"mp4", "mkv", "webm", "avi", "mov", "flv", "wmv", "mpeg", "mpg", "m4v", "3gp", "ts"}

  /** An extension gets a type of its own exactly when its lower-cased form is listed. */
  lemma MimeTypeKnownIff(ext: string)
    ensures MimeTypeFromExtension(ext) != OctetStream <==> Lower(ext) in KnownExtensions
  {
  }

  /** Every type other than the fallback is one of the `video/` types. */
  lemma KnownTypesAreVideo(ext: string)
    ensures MimeTypeFromExtension(ext) != OctetStream ==> StartsWith(MimeTypeFromExtension(ext), "video/")
  {
    var r := MimeTypeFromExtension(ext);
    assert r != OctetStream ==> r[..6] == "video/";
  }

  /** Extensions that differ only in the case of ASCII letters get the same type. */
  lemma MimeTypeIgnoresCase(a: string, b: string)
    requires Lower(a) == Lower(b)
    ensures MimeTypeFromExtension(a) == MimeTypeFromExtension(b)
  {
  }

  /** Both spellings of MPEG map to the same type. */
  lemma MpegSpellings()
    ensures MimeTypeFromExtension("mpeg") == MimeTypeFromExtension("MPG") == "video/mpeg"
  {
    assert Lower("MPG") == "mpg";
    assert Lower("mpeg") == "mpeg";
  }

  /** `fileName.split('.').pop()`: the text after the last '.', or the whole name when
      it has none. */
  function LastSegment(fileName: string): (r: string)
    ensures '.' !in r
    ensures |r| <= |fileName| && r == fileName[|fileName| - |r|..]
  {
    var p := LastIndexOf(fileName, '.');
    var r := fileName[p + 1..];
    assert '.' !in r by {
      forall j | 0 <= j < |r| ensures r[j] != '.' {
        assert r[j] == fileName[p + 1 + j];
      }
    }
    r
  }

  /** `isVideoFile`: the lower-cased last segment is non-empty and listed. */
  predicate IsVideoFile(fileName: string, videoExtensions: seq<string>)
  {
    var ext := Lower(LastSegment(fileName));
    ext != "" && ext in videoExtensions
  }

  /** A name that ends in '.' has an empty last segment and is never a video. */
  lemma TrailingDotIsNotVideo(fileName: string, videoExtensions: seq<string>)
    requires |fileName| > 0 && fileName[|fileName| - 1] == '.'
    ensures !IsVideoFile(fileName, videoExtensions)
  {
    var p := LastIndexOf(fileName, '.');
    assert p == |fileName| - 1;
  }

  /** The name splits at position `p` into a stem ending in '.' (p == -1: no stem, and
      then no '.' at all) and a non-empty extension without '.'. */
  predicate ExtensionSplit(fileName: string, p: int)
  {
    && -1 <= p < |fileName| - 1
    && (p >= 0 ==> fileName[p] == '.')
    && forall k :: p < k < |fileName| ==> fileName[k] != '.'
  }

  /** The only split is at the last '.'. */
  lemma ExtensionSplitIsLastDot(fileName: string, p: int)
    requires ExtensionSplit(fileName, p)
    ensures p == LastIndexOf(fileName, '.')
  {
    var q := LastIndexOf(fileName, '.');
    assert q >= 0 ==> fileName[q] == '.';
    assert p >= 0 ==> fileName[p] == '.';
  }

  /** The video test reads the text after the last '.'. */
  lemma IsVideoFileAtLastDot(fileName: string, videoExtensions: seq<string>)
    ensures var ext := fileName[LastIndexOf(fileName, '.') + 1..];
      IsVideoFile(fileName, videoExtensions) <==> ext != "" && Lower(ext) in videoExtensions
  {
  }

  /** The video test as a statement about how the name splits: some split leaves an
      extension whose lower-cased form is listed. */
  lemma IsVideoFileSplit(fileName: string, videoExtensions: seq<string>)
    ensures IsVideoFile(fileName, videoExtensions) <==>
      exists p :: ExtensionSplit(fileName, p) && Lower(fileName[p + 1..]) in videoExtensions
  {
    var q := LastIndexOf(fileName, '.');
    IsVideoFileAtLastDot(fileName, videoExtensions);
    if q < |fileName| - 1 {
      assert ExtensionSplit(fileName, q);
    }
    forall p | ExtensionSplit(fileName, p)
      ensures p == q
    {
      ExtensionSplitIsLastDot(fileName, p);
    }
  }
}
