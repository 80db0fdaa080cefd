/** The fikfap pipeline's session gate (`MainActivity` of
    `com.fikfap.downloader`), stripped of its user interface: the
    `isHlsProcessing` flag that lets one download start until a completion
    arrives, the URL filter in front of it, and the service commands the
    handlers send, recorded as a list. */
module FikfapSession {
  import opened Common

  datatype Command =
    | StopVpn            // `stopVpn`: ACTION_STOP to the VPN service
    | StopAnalyzer       // stopService(StreamAnalyzerService)
    | StopDownload       // stopService(DownloadService)
    | StartDownload(url: string)

  /** The status line, up to its wording. */
  datatype Status = Monitoring | LinkEstablished | DownloadComplete | DownloadFailed | Ready

  datatype Gate = Gate(processing: bool, status: Status)

  /** The URL filter of `processHls`: an HLS or DASH manifest, not from the
      excluded chat CDN. */
  predicate AcceptsUrl(url: string) {
    (Contains(url, "m3u8") || Contains(url, "mpd")) && !Contains(url, "live.mmcdn.com")
  }

  // ---------------------------------------------------------------------------
  // The handlers as steps on values

  /** `processHls`: nothing while a download is in progress or for a rejected
      URL; otherwise the flag is set, the analyzer is stopped and the download
      service is started with the URL. */
  function Process(g: Gate, url: string): (r: (Gate, seq<Command>))
    ensures g.processing || !AcceptsUrl(url) ==> r == (g, [])
    ensures !g.processing && AcceptsUrl(url) ==>
      r.0.processing && r.1 == [StopAnalyzer, StartDownload(url)]
  {
    if g.processing || !AcceptsUrl(url) then (g, [])
    else (Gate(true, LinkEstablished), [StopAnalyzer, StartDownload(url)])
  }

  /** `handleDownloadComplete`: the flag is always cleared; the VPN is stopped
      only for a delivered file. */
  function Complete(g: Gate, path: Option<string>): (r: (Gate, seq<Command>))
    ensures !r.0.processing
    ensures StopVpn in r.1 <==> path.Some?
    ensures path.None? ==> r.0.status == DownloadFailed
  {
    if path.Some? then (Gate(false, DownloadComplete), [StopVpn])
    else (Gate(false, DownloadFailed), [])
  }

  /** `stopAll`: the three services are stopped, the flag is left as it is. */
  function StopAll(g: Gate): (r: (Gate, seq<Command>))
    ensures r.0.processing == g.processing
    ensures r.1 == [StopVpn, StopAnalyzer, StopDownload]
  {
    (Gate(g.processing, Ready), [StopVpn, StopAnalyzer, StopDownload])
  }

  /** The downloads a list of commands starts. */
  function Starts(commands: seq<Command>): (n: nat)
    ensures n <= |commands|
  {
    if |commands| == 0 then 0
    else (if commands[0].StartDownload? then 1 else 0) + Starts(commands[1..])
  }

  lemma {:induction false} StartsAppend(a: seq<Command>, b: seq<Command>)
    ensures Starts(a + b) == Starts(a) + Starts(b)
    decreases |a|
  {
    if |a| == 0 {
      assert a + b == b;
    } else {
      assert (a + b)[1..] == a[1..] + b;
      StartsAppend(a[1..], b);
    }
  }

  /** A run of detected URLs with no completion in between: the gate state
      after them and the commands they sent. */
  function ProcessAll(g: Gate, urls: seq<string>): (Gate, seq<Command>)
    decreases |urls|
  {
    if |urls| == 0 then (g, [])
    else
      var (g1, c1) := Process(g, urls[0]);
      var (g2, c2) := ProcessAll(g1, urls[1..]);
      (g2, c1 + c2)
  }

  /** Between two completions at most one download is started, and none while
      the flag is already set. */
  lemma {:induction false} AtMostOneDownloadPerCycle(g: Gate, urls: seq<string>)
    ensures Starts(ProcessAll(g, urls).1) <= 1
    ensures g.processing ==> ProcessAll(g, urls) == (g, [])
    decreases |urls|
  {
    if |urls| > 0 {
      var (g1, c1) := Process(g, urls[0]);
      AtMostOneDownloadPerCycle(g1, urls[1..]);
      var c2 := ProcessAll(g1, urls[1..]).1;
      StartsAppend(c1, c2);
      if !g.processing && AcceptsUrl(urls[0]) {
        assert Starts(c1) == 1 by {
          assert c1[1..] == [StartDownload(urls[0])];
          assert c1[1..][1..] == [];
        }
        assert c2 == [];
      } else {
        assert c1 == [];
      }
    }
  }

  /** A completion reopens the gate: the next accepted URL starts a download. */
  lemma CompletionReopensGate(g: Gate, path: Option<string>, url: string)
    requires AcceptsUrl(url)
    ensures StartDownload(url) in Process(Complete(g, path).0, url).1
  {
    assert Process(Complete(g, path).0, url).1[1] == StartDownload(url);
  }

  /** `stopAll` does not reopen the gate: while a download is in progress, a
      URL that arrives after it is still ignored. */
  lemma StopAllKeepsGateClosed(g: Gate, url: string)
    requires g.processing
    ensures Process(StopAll(g).0, url).1 == []
  {
  }

  // ---------------------------------------------------------------------------
  // The activity

  class FikfapActivity {
    var isHlsProcessing: bool
    var status: Status
    /** The service commands sent, in order. */
    var commands: seq<Command>

    function State(): Gate
      reads this
    {
      Gate(isHlsProcessing, status)
    }

    constructor ()
      ensures !isHlsProcessing && commands == []
    {
      isHlsProcessing, status, commands := false, Monitoring, [];
    }

    method ProcessHls(url: string)
      modifies this
      ensures State() == Process(old(State()), url).0
      ensures commands == old(commands) + Process(old(State()), url).1
    {
      if isHlsProcessing {
        return;
      }
      if !Contains(url, "m3u8") && !Contains(url, "mpd") {
        return;
      }
      if Contains(url, "live.mmcdn.com") {
        return;
      }
      isHlsProcessing := true;
      status := LinkEstablished;
      commands := commands + [StopAnalyzer];
      commands := commands + [StartDownload(url)];
    }

    method HandleDownloadComplete(path: Option<string>)
      modifies this
      ensures State() == Complete(old(State()), path).0
      ensures commands == old(commands) + Complete(old(State()), path).1
    {
      isHlsProcessing := false;
      if path.Some? {
        status := DownloadComplete;
        commands := commands + [StopVpn];
      } else {
        status := DownloadFailed;
      }
    }

    method StopAllServices()
      modifies this
      ensures State() == StopAll(old(State())).0
      ensures commands == old(commands) + StopAll(old(State())).1
    {
      commands := commands + [StopVpn];
      commands := commands + [StopAnalyzer];
      commands := commands + [StopDownload];
      status := Ready;
    }
  }
}
