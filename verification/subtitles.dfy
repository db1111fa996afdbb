/** Subtitle handling of the video player (src/components/VideoPlayer/VideoPlayer.tsx):
    the SRT-to-WebVTT conversion, the choice of which uploads to convert, and the label
    derived from the uploaded file's name. */
module Subtitles {
  import opened Strings

  const VttHeader := "WEBVTT\n\n"

  /** `\d` of a JavaScript regular expression without the `u` flag: ASCII digits only. */
  predicate IsDigit(c: char) {
    '0' <= c <= '9'
  }

  /** The pattern `(\d{2}:\d{2}:\d{2}),(\d{3})` matches the twelve characters of `s`
      that start at `p`. */
  predicate TimestampAt(s: string, p: int) {
    && 0 <= p && p + 12 <= |s|
    && IsDigit(s[p]) && IsDigit(s[p + 1]) && s[p + 2] == ':'
    && IsDigit(s[p + 3]) && IsDigit(s[p + 4]) && s[p + 5] == ':'
    && IsDigit(s[p + 6]) && IsDigit(s[p + 7]) && s[p + 8] == ','
    && IsDigit(s[p + 9]) && IsDigit(s[p + 10]) && IsDigit(s[p + 11])
  }

  /** A match in a suffix is a match in the whole text, shifted. */
  lemma TimestampInSuffix(s: string, n: nat, j: int)
    requires n <= |s| && TimestampAt(s[n..], j)
    ensures TimestampAt(s, j + n)
  {
    assert forall k :: j <= k < j + 12 ==> s[n..][k] == s[k + n];
  }

  /** Every match in a suffix is a match in the whole text, shifted. */
  lemma SuffixMatches(s: string, n: nat)
    requires n <= |s|
    ensures forall j :: TimestampAt(s[n..], j) ==> TimestampAt(s, j + n)
  {
    forall j | TimestampAt(s[n..], j)
      ensures TimestampAt(s, j + n)
    {
      TimestampInSuffix(s, n, j);
    }
  }

  /** `r` is `s` with some of its commas turned into '.', each of them the comma of a
      timestamp match in `s`. */
  predicate CommasRewritten(s: string, r: string) {
    && |r| == |s|
    && (forall k :: 0 <= k < |s| ==> r[k] == s[k] || (s[k] == ',' && r[k] == '.'))
    && (forall k :: 0 <= k < |s| && r[k] != s[k] ==> TimestampAt(s, k - 8))
  }

  /** The global replace with `'$1.$2'`: scanning left to right, a match is rewritten
      with '.' in place of its comma and scanning resumes after it; any other character
      is copied. Only commas that sit in a timestamp change, and only to '.'. */
  function ReplaceTimestamps(s: string): (r: string)
    ensures CommasRewritten(s, r)
    decreases |s|
  {
    if |s| == 0 then ""
    else if TimestampAt(s, 0) then
      var rest := ReplaceTimestamps(s[12..]);
      RewriteAfterMatch(s, rest);
      s[..8] + "." + s[9..12] + rest
    else
      var rest := ReplaceTimestamps(s[1..]);
      RewriteAfterCopy(s, rest);
      [s[0]] + rest
  }

  /** Rewriting the comma of a leading match keeps the property for the whole text. */
  lemma RewriteAfterMatch(s: string, rest: string)
    requires TimestampAt(s, 0) && CommasRewritten(s[12..], rest)
    ensures CommasRewritten(s, s[..8] + "." + s[9..12] + rest)
  {
    var r := s[..8] + "." + s[9..12] + rest;
    assert forall k :: 12 <= k < |s| ==> r[k] == rest[k - 12] && s[k] == s[12..][k - 12];
    SuffixMatches(s, 12);
  }

  /** Copying a leading character keeps the property for the whole text. */
  lemma RewriteAfterCopy(s: string, rest: string)
    requires |s| > 0 && CommasRewritten(s[1..], rest)
    ensures CommasRewritten(s, [s[0]] + rest)
  {
    var r := [s[0]] + rest;
    assert forall k :: 1 <= k < |s| ==> r[k] == rest[k - 1] && s[k] == s[1..][k - 1];
    SuffixMatches(s, 1);
  }

  /** Two matches of the timestamp pattern overlap only when the second starts on one of
      the last two digits of the first. */
  lemma TimestampOverlap(s: string, p: int, q: int)
    requires TimestampAt(s, p) && TimestampAt(s, q) && p < q
    ensures p + 12 <= q || q - p == 10 || q - p == 11
  {
  }

  /** A match in the rewritten text was already a match in the original, at the same place. */
  lemma MatchInOutputWasInInput(s: string, p: int)
    requires TimestampAt(ReplaceTimestamps(s), p)
    ensures TimestampAt(s, p)
  {
    var r := ReplaceTimestamps(s);
    assert r[p + 8] == ',';
    assert forall k :: p <= k < p + 12 ==> r[k] != '.' ==> r[k] == s[k];
  }

  /** Every timestamp left in `r` starts on the last two millisecond digits of a
      converted one, whose comma is now the '.' two or three characters before it. */
  ghost predicate OnlyOverlapsSurvive(r: string) {
    forall p :: TimestampAt(r, p) ==> p >= 10 && (r[p - 2] == '.' || r[p - 3] == '.')
  }

  /** A match in the second part of a concatenation is a match in that part. */
  lemma TimestampInConcat(a: string, b: string, p: int)
    requires TimestampAt(a + b, p) && p >= |a|
    ensures TimestampAt(b, p - |a|)
  {
    assert forall k :: p <= k < p + 12 ==> (a + b)[k] == b[k - |a|];
  }

  lemma SurvivorsAfterMatch(s: string)
    requires TimestampAt(s, 0)
    requires OnlyOverlapsSurvive(ReplaceTimestamps(s[12..]))
    ensures OnlyOverlapsSurvive(ReplaceTimestamps(s))
  {
    var r := ReplaceTimestamps(s);
    var head := s[..8] + "." + s[9..12];
    var rest := ReplaceTimestamps(s[12..]);
    assert r == head + rest;
    assert r[8] == '.';
    forall p | TimestampAt(r, p)
      ensures p >= 10 && (r[p - 2] == '.' || r[p - 3] == '.')
    {
      MatchInOutputWasInInput(s, p);
      if p < 12 {
        TimestampOverlap(s, 0, p);
      } else {
        TimestampInConcat(head, rest, p);
        assert TimestampAt(rest, p - 12);
        assert r[p - 2] == rest[p - 14] && r[p - 3] == rest[p - 15];
      }
    }
  }

  lemma SurvivorsAfterCopy(s: string)
    requires |s| > 0 && !TimestampAt(s, 0)
    requires OnlyOverlapsSurvive(ReplaceTimestamps(s[1..]))
    ensures OnlyOverlapsSurvive(ReplaceTimestamps(s))
  {
    var r := ReplaceTimestamps(s);
    var rest := ReplaceTimestamps(s[1..]);
    assert r == [s[0]] + rest;
    forall p | TimestampAt(r, p)
      ensures p >= 10 && (r[p - 2] == '.' || r[p - 3] == '.')
    {
      MatchInOutputWasInInput(s, p);
      assert p != 0;
      TimestampInConcat([s[0]], rest, p);
      assert TimestampAt(rest, p - 1);
      assert p - 1 >= 10 && (rest[p - 3] == '.' || rest[p - 4] == '.');
      assert r[p - 2] == rest[p - 3] && r[p - 3] == rest[p - 4];
    }
  }

  /** A timestamp survives the rewrite only by starting on the last two millisecond
      digits of a converted one: "12:34:56,7890:12:34,567" keeps its second timestamp,
      and no other kind of text keeps one. */
  lemma {:induction false} SurvivingTimestamps(s: string)
    ensures OnlyOverlapsSurvive(ReplaceTimestamps(s))
    decreases |s|
  {
    if |s| == 0 {
    } else if TimestampAt(s, 0) {
      SurvivingTimestamps(s[12..]);
      SurvivorsAfterMatch(s);
    } else {
      SurvivingTimestamps(s[1..]);
      SurvivorsAfterCopy(s);
    }
  }

  /** `convertSRTtoVTT`: the WebVTT header followed by the rewritten text. */
  function ConvertSrtToVtt(srt: string): (vtt: string)
    ensures |vtt| == |srt| + 8
    ensures vtt[..8] == VttHeader
    ensures forall k :: 0 <= k < |srt| ==> vtt[k + 8] == srt[k] || (srt[k] == ',' && vtt[k + 8] == '.')
    ensures forall k :: 0 <= k < |srt| && vtt[k + 8] != srt[k] ==> TimestampAt(srt, k - 8)
  {
    var vtt := VttHeader + ReplaceTimestamps(srt);
    assert forall k :: 0 <= k < |srt| ==> vtt[k + 8] == ReplaceTimestamps(srt)[k];
    vtt
  }

  /** What an uploaded subtitle file becomes: names ending in ".srt" are converted,
      any other upload is used as it is. */
  function SubtitleContent(fileName: string, text: string): (content: string)
    ensures !EndsWith(fileName, ".srt") ==> content == text
    ensures EndsWith(fileName, ".srt") ==> |content| == |text| + 8 && content[..8] == VttHeader && content[8..] == ReplaceTimestamps(text)
  {
    if EndsWith(fileName, ".srt") then ConvertSrtToVtt(text) else text
  }

  /** `/\.[^/.]+$/` matches at `p`: a '.' followed by one or more characters, none of
      them '.' or '/', up to the end of the name. */
  predicate ExtensionAt(name: string, p: int) {
    && 0 <= p < |name| - 1
    && name[p] == '.'
    && forall k :: p < k < |name| ==> name[k] != '.' && name[k] != '/'
  }

  /** The pattern can only match at the last '.' of the name. */
  lemma ExtensionAtLastDot(name: string, q: int)
    requires ExtensionAt(name, q)
    ensures q == LastIndexOf(name, '.')
  {
    var p := LastIndexOf(name, '.');
    assert p >= 0 ==> name[p] == '.';
    assert name[q] == '.';
  }

  /** The pattern matches somewhere exactly when the last '.' is followed by at least
      one character and no '/'. */
  lemma ExtensionAtIff(name: string)
    ensures var p := LastIndexOf(name, '.');
      (exists q :: ExtensionAt(name, q)) <==> (p >= 0 && p + 1 < |name| && '/' !in name[p + 1..])
  {
    var p := LastIndexOf(name, '.');
    forall q | ExtensionAt(name, q)
      ensures p >= 0 && p + 1 < |name| && '/' !in name[p + 1..]
    {
      ExtensionAtLastDot(name, q);
      assert forall j :: p + 1 <= j < |name| ==> name[p + 1..][j - p - 1] == name[j];
    }
    if p >= 0 && p + 1 < |name| && '/' !in name[p + 1..] {
      assert forall k :: p < k < |name| ==> name[k] == name[p + 1..][k - p - 1];
      assert ExtensionAt(name, p);
    }
  }

  /** The subtitle label: the name without the extension the pattern matches, or the
      whole name when there is none. */
  function SubtitleLabel(name: string): (stem: string)
    ensures (exists p :: ExtensionAt(name, p) && stem == name[..p])
         || ((forall p :: !ExtensionAt(name, p)) && stem == name)
  {
    var p := LastIndexOf(name, '.');
    ExtensionAtIff(name);
    if p >= 0 && p + 1 < |name| && '/' !in name[p + 1..] then
      assert forall k :: p < k < |name| ==> name[k] == name[p + 1..][k - p - 1];
      assert ExtensionAt(name, p);
      name[..p]
    else
      name
  }
}
