/** The fikfap pipeline's assembler front end (`HLSProcessor.processStream`):
    the FFmpeg argument vector, built by successive appends, and the mapping
    from the way the FFmpeg run ends to what `onComplete` receives. Running
    FFmpeg, the background thread and the progress pass-through are not
    modelled. */
module HlsProcessor {
  import opened Common

  const CRLF: string := "\r\n"
  const USER_AGENT: string :=
    "Mozilla/5.0 (Windows NT 10.0; Win64; x64) AppleWebKit/537.36 (KHTML, like Gecko) Chrome/120.0.0.0 Safari/537.36"
  const REFERER: string := "https://fikfap.com/"

  /** The `-headers` value: a User-Agent line and the Referer line the CDN
      demands on every request, each ended by CRLF. */
  const HEADERS: string := "User-Agent: " + USER_AGENT + CRLF + "Referer: " + REFERER + CRLF

  /** Two CRLF-terminated lines side by side: the text starts with the first
      and ends with the break before the second and the second itself. */
  lemma JoinedLines(first: string, second: string)
    requires EndsWith(first, CRLF)
    ensures StartsWith(first + second, first)
    ensures EndsWith(first + second, CRLF + second)
  {
    var t := first + second;
    assert t[..|first|] == first;
    assert t[|t| - |second| - 2..] == first[|first| - 2..] + second;
  }

  lemma EndsWithSuffix(s: string, suffix: string)
    ensures EndsWith(s + suffix, suffix)
  {
    assert (s + suffix)[|s|..] == suffix;
  }

  /** The header value starts with the User-Agent field and ends with the
      Referer line, the line before it being CRLF-terminated. */
  lemma HeaderLines()
    ensures StartsWith(HEADERS, "User-Agent: " + USER_AGENT + CRLF)
    ensures EndsWith(HEADERS, CRLF + "Referer: " + REFERER + CRLF)
  {
    var ua := "User-Agent: " + USER_AGENT;
    var referer := "Referer: " + REFERER;
    EndsWithSuffix(ua, CRLF);
    JoinedLines(ua + CRLF, referer + CRLF);
    assert HEADERS == (ua + CRLF) + (referer + CRLF);
    assert CRLF + "Referer: " + REFERER + CRLF == CRLF + (referer + CRLF);
  }

  /** The stream-copy, bitstream-filter and four reconnect option pairs, in order. */
  const COPY_AND_RECONNECT: seq<string> :=
    ["-c", "copy", "-bsf:a", "aac_adtstoasc",
     "-reconnect", "1", "-reconnect_at_eof", "1", "-reconnect_streamed", "1",
     "-reconnect_delay_max", "10"]

  /** `FikFap_<millis>.mp4`. */
  function OutputFileName(millis: nat): string {
    "FikFap_" + NatToString(millis) + ".mp4"
  }

  /** The absolute path of the output file in the movies directory. */
  function OutputPath(storageDir: string, millis: nat): (path: string)
    ensures EndsWith(path, OutputFileName(millis))
  {
    var path := storageDir + "/" + OutputFileName(millis);
    assert path[|path| - |OutputFileName(millis)|..] == OutputFileName(millis);
    path
  }

  /** The argument vector of `processStream`: the program-name placeholder,
      the headers, the input, the key pair when a key is given, the copy and
      reconnect options, and the overwrite flag before the output path. */
  function Command(manifestUrl: string, keyHex: Option<string>, outputPath: string): seq<string> {
    ["ffmpeg", "-headers", HEADERS, "-i", manifestUrl]
    + (if keyHex.Some? then ["-decryption_key", keyHex.value] else [])
    + COPY_AND_RECONNECT + ["-y", outputPath]
  }

  /** Where each argument sits: a key adds exactly the pair at positions 5
      and 6 and shifts the rest by two; the output path is always last. */
  lemma CommandLayout(manifestUrl: string, keyHex: Option<string>, outputPath: string)
    ensures var args := Command(manifestUrl, keyHex, outputPath);
      && |args| == (if keyHex.Some? then 21 else 19)
      && args[0] == "ffmpeg" && args[1] == "-headers" && args[2] == HEADERS
      && args[3] == "-i" && args[4] == manifestUrl
      && (args[5] == "-decryption_key" <==> keyHex.Some?)
      && (keyHex.Some? ==> args[6] == keyHex.value)
      && args[|args| - 2] == "-y" && args[|args| - 1] == outputPath
      && (var k := if keyHex.Some? then 7 else 5;
          args[k..k + |COPY_AND_RECONNECT|] == COPY_AND_RECONNECT)
  {
    var key := if keyHex.Some? then ["-decryption_key", keyHex.value] else [];
    var head := ["ffmpeg", "-headers", HEADERS, "-i", manifestUrl] + key;
    var args := head + COPY_AND_RECONNECT + ["-y", outputPath];
    assert args == Command(manifestUrl, keyHex, outputPath);
    assert args[|head|..|head| + |COPY_AND_RECONNECT|] == COPY_AND_RECONNECT;
    assert COPY_AND_RECONNECT[0] == "-c";
  }

  /** The copy and reconnect options as the pairs they are appended in. */
  lemma CopyAndReconnectPairs()
    ensures COPY_AND_RECONNECT
      == ["-c", "copy"] + ["-bsf:a", "aac_adtstoasc"] + ["-reconnect", "1"]
         + ["-reconnect_at_eof", "1"] + ["-reconnect_streamed", "1"] + ["-reconnect_delay_max", "10"]
  {
  }

  lemma AppendSix(h: seq<string>, p1: seq<string>, p2: seq<string>, p3: seq<string>,
                  p4: seq<string>, p5: seq<string>, p6: seq<string>)
    ensures h + p1 + p2 + p3 + p4 + p5 + p6 == h + (p1 + p2 + p3 + p4 + p5 + p6)
  {
  }

  /** `processStream`'s argument list, built by successive appends (one
      statement here per option and its value). */
  method BuildCommand(manifestUrl: string, keyHex: Option<string>, outputPath: string)
    returns (args: seq<string>)
    ensures args == Command(manifestUrl, keyHex, outputPath)
  {
    args := [];
    args := args + ["ffmpeg"];
    args := args + ["-headers", HEADERS];
    args := args + ["-i", manifestUrl];
    if keyHex.Some? {
      args := args + ["-decryption_key", keyHex.value];
    }
    ghost var head := args;
    assert head == ["ffmpeg", "-headers", HEADERS, "-i", manifestUrl]
      + (if keyHex.Some? then ["-decryption_key", keyHex.value] else []);
    args := args + ["-c", "copy"];
    args := args + ["-bsf:a", "aac_adtstoasc"];
    args := args + ["-reconnect", "1"];
    args := args + ["-reconnect_at_eof", "1"];
    args := args + ["-reconnect_streamed", "1"];
    args := args + ["-reconnect_delay_max", "10"];
    AppendSix(head, ["-c", "copy"], ["-bsf:a", "aac_adtstoasc"], ["-reconnect", "1"],
              ["-reconnect_at_eof", "1"], ["-reconnect_streamed", "1"], ["-reconnect_delay_max", "10"]);
    CopyAndReconnectPairs();
    args := args + ["-y", outputPath];
  }

  /** How the FFmpeg run ends: the subscriber's finish, cancel or error
      callback, or an exception thrown by the invocation itself. */
  datatype RunOutcome = Finished | Canceled | Failed(message: Option<string>) | InvocationError

  /** What `onComplete` receives: the output file on finish, null otherwise. */
  function CompletionFile(outcome: RunOutcome, outputPath: string): (r: Option<string>)
    ensures r.Some? <==> outcome == Finished
    ensures r.Some? ==> r.value == outputPath
  {
    match outcome
    case Finished => Some(outputPath)
    case Canceled => None
    case Failed(_) => None
    case InvocationError => None
  }
}
