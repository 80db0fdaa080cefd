/** The research pipeline's segmented downloader (`HlsDownloader.downloadHls`):
    the playlist is split into lines, the segment lines are kept and resolved
    against the playlist URL, and the segments are fetched one after another
    into a new output file, reporting progress after each. The HTTP client is
    a function parameter: for a URL it either throws or answers with a body
    that may be absent. */
module HlsDownloader {
  import opened Common

  // ---------------------------------------------------------------------------
  // Lines of a playlist

  predicate IsLineBreak(c: char) {
    c == '\n' || c == '\r'
  }

  /** The index of the first line break at or after `i`, or `|s|`. */
  function LineEnd(s: string, i: nat): (e: nat)
    requires i <= |s|
    ensures i <= e <= |s|
    ensures e < |s| ==> IsLineBreak(s[e])
    ensures forall k | i <= k < e :: !IsLineBreak(s[k])
    decreases |s| - i
  {
    if i == |s| || IsLineBreak(s[i]) then i else LineEnd(s, i + 1)
  }

  /** The length of the line break at `e`: "\r\n" counts as one break. */
  function BreakLength(s: string, e: nat): (n: nat)
    requires e < |s|
    ensures n == 1 || n == 2
    ensures e + n <= |s|
  {
    if s[e] == '\r' && e + 1 < |s| && s[e + 1] == '\n' then 2 else 1
  }

  /** Kotlin's `lines()`: the text cut at every "\r\n", "\n" and "\r"; a
      trailing break leaves an empty last line. */
  function Lines(s: string): (r: seq<string>)
    ensures |r| >= 1
    ensures forall i | 0 <= i < |r| :: forall k | 0 <= k < |r[i]| :: !IsLineBreak(r[i][k])
    decreases |s|
  {
    var e := LineEnd(s, 0);
    if e == |s| then [s]
    else [s[..e]] + Lines(s[e + BreakLength(s, e)..])
  }

  /** Lines joined by "\n". */
  function JoinLines(lines: seq<string>): string
    requires |lines| >= 1
  {
    if |lines| == 1 then lines[0] else lines[0] + "\n" + JoinLines(lines[1..])
  }

  /** On a text with "\n" breaks only, `lines()` loses nothing: joining the
      lines with "\n" gives the text back. */
  lemma {:induction false} LinesJoin(s: string)
    requires '\r' !in s
    ensures JoinLines(Lines(s)) == s
    decreases |s|
  {
    var e := LineEnd(s, 0);
    if e < |s| {
      assert s[e] == '\n';
      var rest := s[e + 1..];
      assert '\r' !in rest by {
        forall k | 0 <= k < |rest| ensures rest[k] != '\r' {
          assert rest[k] == s[e + 1 + k];
        }
      }
      LinesJoin(rest);
      assert Lines(s) == [s[..e]] + Lines(rest);
      assert s == s[..e] + "\n" + rest;
    }
  }

  // ---------------------------------------------------------------------------
  // Segment lines and their URLs

  /** The segment filter: a line ending ".ts" or holding ".ts?". */
  predicate IsSegmentLine(line: string) {
    EndsWith(line, ".ts") || Contains(line, ".ts?")
  }

  /** The segment lines, in playlist order. */
  function SegmentLines(lines: seq<string>): (r: seq<string>)
    ensures |r| <= |lines|
    ensures forall i | 0 <= i < |r| :: IsSegmentLine(r[i]) && r[i] in lines
    ensures forall i | 0 <= i < |lines| :: IsSegmentLine(lines[i]) ==> lines[i] in r
  {
    if |lines| == 0 then []
    else if IsSegmentLine(lines[0]) then [lines[0]] + SegmentLines(lines[1..])
    else SegmentLines(lines[1..])
  }

  /** Filtering keeps order: the segments of a joined list are the segments of
      the first part followed by those of the second. */
  lemma {:induction false} SegmentLinesAppend(a: seq<string>, b: seq<string>)
    ensures SegmentLines(a + b) == SegmentLines(a) + SegmentLines(b)
    decreases |a|
  {
    if |a| == 0 {
      assert a + b == b;
    } else {
      assert (a + b)[1..] == a[1..] + b;
      SegmentLinesAppend(a[1..], b);
    }
  }

  /** The URL of a segment line: a line starting "http" as it is, any other
      line appended to the playlist URL up to its last "/". */
  function ResolveSegment(playlistUrl: string, line: string): (r: string)
    ensures EndsWith(r, line)
    ensures StartsWith(line, "http") ==> r == line
    ensures !StartsWith(line, "http") ==>
      StartsWith(r, SubstringBeforeLast(playlistUrl, '/') + "/")
  {
    var r := if StartsWith(line, "http") then line else SubstringBeforeLast(playlistUrl, '/') + "/" + line;
    assert r[|r| - |line|..] == line;
    r
  }

  /** The base a relative line is resolved against is the playlist URL up to
      (not including) its last "/", so it is a prefix of the playlist URL. */
  lemma ResolveBaseIsPrefix(playlistUrl: string)
    requires '/' in playlistUrl
    ensures var base := SubstringBeforeLast(playlistUrl, '/');
      StartsWith(playlistUrl, base + "/") && '/' !in playlistUrl[|base| + 1..]
  {
    var i := LastIndexOf(playlistUrl, '/').value;
    assert playlistUrl[..i + 1] == playlistUrl[..i] + "/";
  }

  /** The segment URLs of a playlist body, in playlist order. */
  function SegmentUrls(playlistUrl: string, body: string): (r: seq<string>)
    ensures var segments := SegmentLines(Lines(body));
      |r| == |segments| && forall i | 0 <= i < |r| :: r[i] == ResolveSegment(playlistUrl, segments[i])
  {
    var segments := SegmentLines(Lines(body));
    seq(|segments|, i requires 0 <= i < |segments| => ResolveSegment(playlistUrl, segments[i]))
  }

  // ---------------------------------------------------------------------------
  // The download loop

  /** What an HTTP call gives: an exception, or a response whose body may be absent. */
  datatype Fetch<T> = Thrown | Response(body: Option<T>)

  /** The output file: its name and the bytes written to it. */
  datatype OutputFile = OutputFile(name: string, content: seq<uint8>)

  function OutputName(millis: nat): string {
    "research_download_" + NatToString(millis) + ".mp4"
  }

  /** What a segment adds to the file: its body, or nothing when it has none. */
  function BodyBytes(f: Fetch<seq<uint8>>): seq<uint8> {
    if f.Response? && f.body.Some? then f.body.value else []
  }

  /** The bytes of the first `k` segments, in order. */
  function Written(urls: seq<string>, fetch: string -> Fetch<seq<uint8>>, k: nat): seq<uint8>
    requires k <= |urls|
  {
    if k == 0 then [] else Written(urls, fetch, k - 1) + BodyBytes(fetch(urls[k - 1]))
  }

  /** The progress calls after `k` segments of `n`: (1, n), ..., (k, n). */
  function Progress(k: nat, n: nat): (r: seq<(nat, nat)>)
    ensures |r| == k
    ensures forall i | 0 <= i < k :: r[i] == (i + 1, n)
  {
    seq(k, i requires 0 <= i < k => (i + 1, n))
  }

  /** The index of the first segment whose fetch throws. */
  function FirstThrow(urls: seq<string>, fetch: string -> Fetch<seq<uint8>>, from: nat): (r: Option<nat>)
    requires from <= |urls|
    ensures r.Some? ==> from <= r.value < |urls| && fetch(urls[r.value]).Thrown?
    ensures r.Some? ==> forall i | from <= i < r.value :: !fetch(urls[i]).Thrown?
    ensures r.None? ==> forall i | from <= i < |urls| :: !fetch(urls[i]).Thrown?
    decreases |urls| - from
  {
    if from == |urls| then None
    else if fetch(urls[from]).Thrown? then Some(from)
    else FirstThrow(urls, fetch, from + 1)
  }

  /** How many segments are fetched before the first exception: all of them
      when none throws. */
  function Done(urls: seq<string>, fetch: string -> Fetch<seq<uint8>>): (k: nat)
    ensures k <= |urls|
  {
    var stop := FirstThrow(urls, fetch, 0);
    if stop.Some? then stop.value else |urls|
  }

  /** `downloadHls`, returning the file it reports, the file it left on disk
      (kept even when a later fetch fails) and the progress calls it made. */
  method DownloadHls(playlistUrl: string, millis: nat,
                     fetchText: string -> Fetch<string>, fetchBytes: string -> Fetch<seq<uint8>>)
    returns (result: Option<string>, created: Option<OutputFile>, progress: seq<(nat, nat)>)
    ensures fetchText(playlistUrl) == Thrown || fetchText(playlistUrl) == Response(None)
            ==> result == None && created == None && progress == []
    ensures fetchText(playlistUrl).Response? && fetchText(playlistUrl).body.Some? ==>
      var urls := SegmentUrls(playlistUrl, fetchText(playlistUrl).body.value);
      if |urls| == 0 then result == None && created == None && progress == []
      else
        && created == Some(OutputFile(OutputName(millis), Written(urls, fetchBytes, Done(urls, fetchBytes))))
        && progress == Progress(Done(urls, fetchBytes), |urls|)
        && (result.Some? <==> FirstThrow(urls, fetchBytes, 0).None?)
        && (result.Some? ==> result.value == OutputName(millis))
  {
    result, created, progress := None, None, [];
    var playlist := fetchText(playlistUrl);
    if playlist.Thrown? || playlist.body.None? {
      return;
    }
    var urls := SegmentUrls(playlistUrl, playlist.body.value);
    if |urls| == 0 {
      return;
    }
    var name := OutputName(millis);
    var completed, content;
    completed, content, progress := FetchSegments(urls, fetchBytes);
    created := Some(OutputFile(name, content));
    if completed {
      result := Some(name);
    }
  }

  /** The `forEachIndexed` loop: each segment's body is appended to the file
      and `onProgress(index + 1, size)` follows; an exception ends the loop. */
  method FetchSegments(urls: seq<string>, fetchBytes: string -> Fetch<seq<uint8>>)
    returns (completed: bool, content: seq<uint8>, progress: seq<(nat, nat)>)
    ensures completed <==> FirstThrow(urls, fetchBytes, 0).None?
    ensures content == Written(urls, fetchBytes, Done(urls, fetchBytes))
    ensures progress == Progress(Done(urls, fetchBytes), |urls|)
  {
    content, progress := [], [];
    var i := 0;
    while i < |urls|
      invariant 0 <= i <= |urls|
      invariant forall j | 0 <= j < i :: !fetchBytes(urls[j]).Thrown?
      invariant content == Written(urls, fetchBytes, i)
      invariant progress == Progress(i, |urls|)
    {
      var segment := fetchBytes(urls[i]);
      if segment.Thrown? {
        assert FirstThrow(urls, fetchBytes, 0) == Some(i);
        return false, content, progress;
      }
      content := content + BodyBytes(segment);
      progress := progress + [(i + 1, |urls|)];
      i := i + 1;
    }
    completed := true;
  }

  /** The file grows by whole segments: the bytes after `j` segments are a
      prefix of the bytes after any later count. */
  lemma {:induction false} WrittenGrows(urls: seq<string>, fetch: string -> Fetch<seq<uint8>>, j: nat, k: nat)
    requires j <= k <= |urls|
    ensures Written(urls, fetch, j) <= Written(urls, fetch, k)
    decreases k - j
  {
    if j < k {
      WrittenGrows(urls, fetch, j, k - 1);
      assert Written(urls, fetch, k) == Written(urls, fetch, k - 1) + BodyBytes(fetch(urls[k - 1]));
    }
  }
}
