/** The research pipeline's URL classifier (`MediaDetectionLogic`): ordered
    string rules that put a URL in one of three stream kinds, or none. The
    parsing of the URL into a path and a host is done by the platform and is
    not modelled: both parts come in as inputs, absent when the parser finds
    none. */
module MediaDetection {
  import opened Common
  import opened Models

  const DRM_INFO: string := "Detected DRM License Request"

  /** A license or DRM-proxy request: the first and strongest rule. */
  predicate IsDrmUrl(url: string) {
    Contains(url, "widevine") || Contains(url, "playready") || Contains(url, "license")
    || Contains(url, "proxy/drm")
  }

  /** The adaptive rule, on the lower-cased path and the raw URL. */
  predicate IsAdaptive(url: string, path: string) {
    EndsWith(path, ".m3u8") || EndsWith(path, ".mpd") || Contains(url, "m3u8")
  }

  /** The file endings of direct media. */
  const DIRECT_SUFFIXES: seq<string> := [".mp4", ".webm", ".m4v", ".m4s"]

  /** The direct-media rule, on the lower-cased path: it ends with one of the
      four suffixes. */
  predicate IsDirect(path: string) {
    exists i | 0 <= i < |DIRECT_SUFFIXES| :: EndsWith(path, DIRECT_SUFFIXES[i])
  }

  /** Each suffix is a dot followed by a dot-free extension. */
  lemma DirectSuffixesShape()
    ensures forall i | 0 <= i < |DIRECT_SUFFIXES| ::
      |DIRECT_SUFFIXES[i]| > 1 && DIRECT_SUFFIXES[i][0] == '.' && '.' !in DIRECT_SUFFIXES[i][1..]
  {
    assert '.' !in DIRECT_SUFFIXES[0][1..];
    assert '.' !in DIRECT_SUFFIXES[1][1..];
    assert '.' !in DIRECT_SUFFIXES[2][1..];
    assert '.' !in DIRECT_SUFFIXES[3][1..];
  }

  /** `uri.path?.lowercase() ?: ""`. */
  function LowerPath(path: Option<string>): string {
    if path.Some? then ToLower(path.value) else ""
  }

  /** `analyzeUrl`. */
  function AnalyzeUrl(url: string, path: Option<string>, host: Option<string>): (r: Option<MediaStream>)
    ensures r.Some? ==> r.value.url == url && r.value.estimatedSize.None?
    ensures r.Some? ==> r.value.domain == Some(if host.Some? then host.value else "")
    ensures r.Some? && r.value.streamType == DrmProtected <==> IsDrmUrl(url)
    ensures r.Some? && r.value.streamType == AdaptiveStream
        <==> !IsDrmUrl(url) && IsAdaptive(url, LowerPath(path))
    ensures r.Some? && r.value.streamType == DirectMedia
        <==> !IsDrmUrl(url) && !IsAdaptive(url, LowerPath(path)) && IsDirect(LowerPath(path))
    ensures r.Some? ==> r.value.streamType != Unsupported
    ensures r.Some? ==> (r.value.drmInfo.Some? <==> r.value.streamType == DrmProtected)
    ensures r.Some? && r.value.streamType == AdaptiveStream ==>
      r.value.format == Some(if EndsWith(LowerPath(path), ".m3u8") then "HLS" else "DASH")
  {
    var p := LowerPath(path);
    var domain := Some(if host.Some? then host.value else "");
    if IsDrmUrl(url) then
      Some(MediaStream(url, DrmProtected, None, domain, None, Some(DRM_INFO)))
    else if IsAdaptive(url, p) then
      Some(MediaStream(url, AdaptiveStream, Some(if EndsWith(p, ".m3u8") then "HLS" else "DASH"),
                       domain, None, None))
    else if IsDirect(p) then
      Some(MediaStream(url, DirectMedia, Some(SubstringAfterLast(p, '.')), domain, None, None))
    else None
  }

  /** A URL is left unclassified exactly when no rule fires. */
  lemma UnclassifiedIff(url: string, path: Option<string>, host: Option<string>)
    ensures AnalyzeUrl(url, path, host).None?
        <==> !IsDrmUrl(url) && !IsAdaptive(url, LowerPath(path)) && !IsDirect(LowerPath(path))
  {
  }

  /** The text after the last "." of a name that ends in a dot and a dot-free
      extension is that extension. */
  lemma AfterLastDot(s: string, suffix: string)
    requires EndsWith(s, suffix) && |suffix| > 0 && suffix[0] == '.' && '.' !in suffix[1..]
    ensures SubstringAfterLast(s, '.') == suffix[1..]
  {
    var i := |s| - |suffix|;
    assert s[i..] == suffix;
    assert s[i] == '.';
    assert s[i + 1..] == suffix[1..];
  }

  /** A direct-media format is the file extension of the path: the text after
      the dot of the suffix the path ends with. */
  lemma DirectFormat(url: string, path: Option<string>, host: Option<string>, m: MediaStream)
    requires AnalyzeUrl(url, path, host) == Some(m) && m.streamType == DirectMedia
    ensures m.format.Some?
    ensures exists i | 0 <= i < |DIRECT_SUFFIXES| ::
      EndsWith(LowerPath(path), DIRECT_SUFFIXES[i]) && m.format.value == DIRECT_SUFFIXES[i][1..]
  {
    var p := LowerPath(path);
    assert m.format == Some(SubstringAfterLast(p, '.'));
    var i :| 0 <= i < |DIRECT_SUFFIXES| && EndsWith(p, DIRECT_SUFFIXES[i]);
    DirectSuffixesShape();
    AfterLastDot(p, DIRECT_SUFFIXES[i]);
  }

  /** `isMediaSegment`: the lower-cased URL ends ".ts" or ".m4s", or mentions "segment". */
  predicate IsMediaSegment(url: string) {
    var lower := ToLower(url);
    EndsWith(lower, ".ts") || EndsWith(lower, ".m4s") || Contains(lower, "segment")
  }

  /** The test ignores case: a URL and its lower-cased form get the same verdict. */
  lemma MediaSegmentIgnoresCase(url: string)
    ensures IsMediaSegment(ToLower(url)) <==> IsMediaSegment(url)
  {
    assert ToLower(ToLower(url)) == ToLower(url);
  }

  /** Whatever the case of its letters, a name ending ".TS" is a segment. */
  lemma UpperCaseTsIsSegment(url: string)
    requires EndsWith(url, ".TS")
    ensures IsMediaSegment(url)
  {
    var lower := ToLower(url);
    assert lower[|lower| - 3..] == ".ts";
  }
}
