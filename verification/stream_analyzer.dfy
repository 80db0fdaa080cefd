/** The page-analysis layer of the fikfap pipeline (`StreamAnalyzerService`):
    the console-message hook, the request-intercept hook and the URL extractor.
    The WebView and its injected script are not modelled; their console
    messages and request URLs are the inputs here, and the two broadcasts a
    hook sends are returned as events in the order they are sent. */
module StreamAnalyzer {
  import opened Common
  import opened ManifestScan

  datatype AnalyzerEvent =
    | Message(text: string)   // `broadcastMessage`: a line for the on-screen log
    | Stream(url: string)     // `broadcastStream`: EVENT_STREAM_DETECTED with `manifest_url`

  /** The URLs of the stream events, in order. */
  function Streams(events: seq<AnalyzerEvent>): (r: seq<string>)
    ensures |r| <= |events|
  {
    if |events| == 0 then []
    else (if events[0].Stream? then [events[0].url] else []) + Streams(events[1..])
  }

  lemma {:induction false} StreamsAppend(a: seq<AnalyzerEvent>, b: seq<AnalyzerEvent>)
    ensures Streams(a + b) == Streams(a) + Streams(b)
    decreases |a|
  {
    if |a| == 0 {
      assert a + b == b;
    } else {
      var head := if a[0].Stream? then [a[0].url] else [];
      assert (a + b)[0] == a[0] && (a + b)[1..] == a[1..] + b;
      StreamsAppend(a[1..], b);
      assert Streams(a + b) == head + (Streams(a[1..]) + Streams(b));
    }
  }

  // ---------------------------------------------------------------------------
  // extractStreamUrl

  /** `Regex(...).find(log)`: the text of the leftmost match of the analyzer's
      `.m3u8` pattern. */
  function FirstHlsUrl(log: string): (r: Option<string>)
    ensures r.Some? ==> exists p, e | 0 <= p < e <= |log| ::
                          MatchEnd(HlsOnly, log, p) == Some(e) && r.value == log[p..e]
  {
    match FindFrom(Matcher(HlsOnly, log), |log|, 0)
    case Some((p, e)) => Some(log[p..e])
    case None => None
  }

  /** There is a URL exactly when the pattern matches somewhere, and it is the
      leftmost match. */
  lemma FirstHlsUrlLeftmost(log: string)
    ensures FirstHlsUrl(log).Some? <==> exists p | 0 <= p <= |log| :: MatchEnd(HlsOnly, log, p).Some?
    ensures FirstHlsUrl(log).Some? ==>
      exists p | 0 <= p <= |log| ::
        && MatchEnd(HlsOnly, log, p).Some?
        && FirstHlsUrl(log).value == log[p..MatchEnd(HlsOnly, log, p).value]
        && forall q | 0 <= q < p :: MatchEnd(HlsOnly, log, q).None?
  {
    var m := Matcher(HlsOnly, log);
    match FindFrom(m, |log|, 0)
    case Some((p, e)) =>
      assert m(p) == Some(e);
      forall q | 0 <= q < p
        ensures MatchEnd(HlsOnly, log, q).None?
      {
        assert m(q).None?;
      }
    case None =>
      forall p | 0 <= p <= |log|
        ensures MatchEnd(HlsOnly, log, p).None?
      {
        assert m(p).None?;
      }
  }

  /** An extracted URL starts with a scheme, holds only URL characters and
      holds ".m3u8" at least one character past the scheme. */
  lemma ExtractedUrlShape(log: string)
    requires FirstHlsUrl(log).Some?
    ensures var v := FirstHlsUrl(log).value;
      && (StartsWith(v, "http://") || StartsWith(v, "https://"))
      && (forall i | 0 <= i < |v| :: IsUrlChar(v[i]))
      && exists j | 0 <= j < |v| :: OccursBy(v, ".m3u8", j, |v|)
  {
    var p, e :| 0 <= p < e <= |log| && MatchEnd(HlsOnly, log, p) == Some(e)
                && FirstHlsUrl(log).value == log[p..e];
    UrlMatchText(HlsOnly, log, p);
  }

  /** `extractStreamUrl`: the log line, then the stream, or nothing. */
  function ExtractStreamUrl(log: string): (r: seq<AnalyzerEvent>)
    ensures Streams(r) == if FirstHlsUrl(log).Some? then [FirstHlsUrl(log).value] else []
    ensures r == [] <==> FirstHlsUrl(log).None?
  {
    match FirstHlsUrl(log)
    case Some(url) => [Message("[HLS] Extracted: " + url), Stream(url)]
    case None => []
  }

  // ---------------------------------------------------------------------------
  // onConsoleMessage

  predicate IsProbeReport(message: string) {
    StartsWith(message, "FOUND:") || StartsWith(message, "FETCH:")
  }

  predicate MentionsHls(message: string) {
    Contains(message, "m3u8") || Contains(message, "hls")
  }

  /** How many times the hook runs the extractor on a message: once per rule
      that fires. */
  function ScanCount(message: string): (n: nat)
    ensures n <= 2
    ensures n == 2 <==> IsProbeReport(message) && MentionsHls(message)
    ensures n == 0 <==> !IsProbeReport(message) && !MentionsHls(message)
  {
    (if IsProbeReport(message) then 1 else 0) + (if MentionsHls(message) then 1 else 0)
  }

  function Repeat(s: seq<string>, n: nat): (r: seq<string>)
    ensures |r| == n * |s|
  {
    if n == 0 then [] else s + Repeat(s, n - 1)
  }

  /** `onConsoleMessage`: the events sent, and the handled flag it returns. */
  function OnConsoleMessage(message: string): (r: (seq<AnalyzerEvent>, bool))
    ensures r.1
    ensures |r.0| > 0 ==> IsProbeReport(message) || MentionsHls(message)
    ensures IsProbeReport(message) ==> |r.0| > 0 && r.0[0] == Message("[JS] " + message)
  {
    var probe := if IsProbeReport(message) then [Message("[JS] " + message)] + ExtractStreamUrl(message)
                 else [];
    var hls := if MentionsHls(message) then ExtractStreamUrl(message) else [];
    (probe + hls, true)
  }

  /** The hook reports the message's first HLS URL once per rule that fires,
      so a probe report that mentions HLS reports it twice. */
  lemma ConsoleMessageStreams(message: string)
    ensures Streams(OnConsoleMessage(message).0)
         == Repeat(if FirstHlsUrl(message).Some? then [FirstHlsUrl(message).value] else [],
                   ScanCount(message))
  {
    var once := if FirstHlsUrl(message).Some? then [FirstHlsUrl(message).value] else [];
    var extracted := ExtractStreamUrl(message);
    var probe := if IsProbeReport(message) then [Message("[JS] " + message)] + extracted else [];
    var hls := if MentionsHls(message) then extracted else [];
    StreamsAppend(probe, hls);
    if IsProbeReport(message) {
      StreamsAppend([Message("[JS] " + message)], extracted);
      assert Streams([Message("[JS] " + message)]) == [];
    }
    assert Streams(probe) == if IsProbeReport(message) then once else [];
    assert Streams(hls) == if MentionsHls(message) then once else [];
  }

  // ---------------------------------------------------------------------------
  // shouldInterceptRequest

  /** The master-playlist filter of the intercept hook. */
  predicate IsMasterPlaylistUrl(url: string) {
    && (Contains(url, ".m3u8") || Contains(url, ".mpd"))
    && (Contains(url, "playlist") || Contains(url, "master"))
  }

  /** The known ad and chat CDNs the hook ignores. */
  predicate IsExcludedCdn(url: string) {
    Contains(url, "live.mmcdn.com") || Contains(url, "chaturbate")
  }

  predicate IsWebSocketUrl(url: string) {
    StartsWith(url, "ws") || StartsWith(url, "wss")
  }

  /** The "wss" test adds nothing: every "wss" URL starts with "ws". */
  lemma WebSocketPrefix(url: string)
    ensures IsWebSocketUrl(url) <==> StartsWith(url, "ws")
  {
    if StartsWith(url, "wss") {
      assert url[..2] == url[..3][..2];
    }
  }

  /** `shouldInterceptRequest` on the request's URL (absent when the request
      or its URL is null): the events sent. The hook always answers with the
      default response, so the request goes through unchanged. */
  function ShouldInterceptRequest(requestUrl: Option<string>): (r: seq<AnalyzerEvent>)
    ensures var url := if requestUrl.Some? then requestUrl.value else "";
      IsWebSocketUrl(url) <==> |r| > 0 && r[0] == Message("[WS] WebSocket link detected: " + url)
  {
    var url := if requestUrl.Some? then requestUrl.value else "";
    var ws := if IsWebSocketUrl(url) then [Message("[WS] WebSocket link detected: " + url)] else [];
    if IsMasterPlaylistUrl(url) && !IsExcludedCdn(url) then
      assert ("[HLS] Master Detected: " + url)[1] != ("[WS] WebSocket link detected: " + url)[1];
      ws + [Message("[HLS] Master Detected: " + url), Stream(url)]
    else ws
  }

  /** A request is reported as a stream exactly when its URL passes the
      playlist filter and is not on an excluded CDN; it is reported as it is. */
  lemma InterceptedStreams(requestUrl: Option<string>)
    ensures var url := if requestUrl.Some? then requestUrl.value else "";
      Streams(ShouldInterceptRequest(requestUrl))
      == if IsMasterPlaylistUrl(url) && !IsExcludedCdn(url) then [url] else []
  {
    var url := if requestUrl.Some? then requestUrl.value else "";
    var ws := if IsWebSocketUrl(url) then [Message("[WS] WebSocket link detected: " + url)] else [];
    assert Streams(ws) == [];
    if IsMasterPlaylistUrl(url) && !IsExcludedCdn(url) {
      var tail := [Message("[HLS] Master Detected: " + url), Stream(url)];
      StreamsAppend(ws, tail);
      assert Streams(tail) == [url] by {
        assert tail[1..] == [Stream(url)];
        assert Streams([Stream(url)]) == [url] + Streams([]);
      }
    }
  }

  /** A null request or URL is treated as the empty text and sends nothing. */
  lemma NullRequestSendsNothing()
    ensures ShouldInterceptRequest(None) == []
  {
    assert !Contains("", ".m3u8");
    assert !Contains("", ".mpd");
  }
}
