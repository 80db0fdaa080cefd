/** The research pipeline's session gate (`MainActivity` of
    `com.research.mediaanalyzer`), stripped of its user interface: the
    `detectedStream` field that lets one detection per session through, the
    dialog that detection opens, the choice of downloader, and the reset in
    `stopAnalysis`. What the handlers ask of the services (stop the VPN, stop
    the analyzer, stop the page, start a download, report an outcome) is
    recorded as a list of effects. */
module ResearchSession {
  import opened Common
  import opened Models

  /** The dialog a detection opens. */
  datatype Dialog = NoDialog | DrmAlert(stream: MediaStream) | DownloadConfirmation(stream: MediaStream)

  /** The status line, up to its wording. */
  datatype Status = Idle | Detected(streamType: StreamType) | Downloading

  datatype Downloader = Segmented | Direct

  datatype Outcome = Completed | Failed

  datatype Effect =
    | AnalysisStopped                                 // VPN stop, analyzer stop, page stop
    | StartDownload(downloader: Downloader, stream: MediaStream)
    | Report(outcome: Outcome)

  datatype Session = Session(detected: Option<MediaStream>, dialog: Dialog, status: Status)

  const START: Session := Session(None, NoDialog, Idle)

  // ---------------------------------------------------------------------------
  // The handlers as steps on values

  /** `onMediaDetected`: ignored while a stream is recorded; otherwise the
      stream is recorded and the DRM alert or the download confirmation opens. */
  function Detect(s: Session, stream: MediaStream): (r: Session)
    ensures s.detected.Some? ==> r == s
    ensures s.detected.None? ==> r.detected == Some(stream) && r.status == Detected(stream.streamType)
    ensures s.detected.None? ==>
      (r.dialog.DrmAlert? <==> stream.streamType == DrmProtected)
      && (r.dialog.DownloadConfirmation? <==> stream.streamType != DrmProtected)
      && (r.dialog.DrmAlert? || r.dialog.DownloadConfirmation?) && r.dialog.stream == stream
  {
    if s.detected.Some? then s
    else
      var dialog := if stream.streamType == DrmProtected then DrmAlert(stream) else DownloadConfirmation(stream);
      Session(Some(stream), dialog, Detected(stream.streamType))
  }

  /** `stopAnalysis`: the status goes back to idle and the recorded stream is
      cleared, so the next detection is taken again. */
  function Stop(s: Session): (r: (Session, seq<Effect>))
    ensures r.0.detected.None? && r.0.status == Idle && r.1 == [AnalysisStopped]
  {
    (Session(None, NoDialog, Idle), [AnalysisStopped])
  }

  /** The downloader `startAcquisition` picks for a stream. */
  function Strategy(stream: MediaStream): (d: Downloader)
    ensures d == Segmented <==> stream.streamType == AdaptiveStream
  {
    if stream.streamType == AdaptiveStream then Segmented else Direct
  }

  /** `startAcquisition`: the stream is handed to the downloader `Strategy`
      picks, which fetches `stream.url`. */
  function Acquire(s: Session, stream: MediaStream): (r: (Session, seq<Effect>))
    ensures r.0.detected == s.detected && r.0.status == Downloading
    ensures r.1 == [StartDownload(Strategy(stream), stream)]
  {
    (Session(s.detected, NoDialog, Downloading), [StartDownload(Strategy(stream), stream)])
  }

  /** `onDownloadComplete`: the outcome, then `stopAnalysis`. */
  function Complete(s: Session, file: Option<string>, fileExists: bool): (r: (Session, seq<Effect>))
    ensures r.0.detected.None? && r.0.status == Idle
    ensures |r.1| == 2 && r.1[1] == AnalysisStopped
    ensures r.1[0] == Report(Completed) <==> file.Some? && fileExists
  {
    var outcome := if file.Some? && fileExists then Completed else Failed;
    var (s', stop) := Stop(s);
    (s', [Report(outcome)] + stop)
  }

  // ---------------------------------------------------------------------------
  // What reaches the activity, and the handler each one runs

  /** A detection from the VPN service, a button of the open dialog, the Stop
      button, the end of a running acquisition (the downloader returned, or
      it threw), or the open dialog closed without a button (neither dialog
      is made non-cancelable, and neither has a cancel listener). */
  datatype UiEvent =
    | MediaFound(stream: MediaStream)
    | DownloadPressed
    | CancelPressed
    | OkPressed
    | StopPressed
    | DownloadReturned(file: Option<string>, fileExists: bool)
    | DownloadThrew
    | Dismissed                          // Back or a tap outside the open dialog

  /** An open dialog belongs to the recorded stream, the DRM alert to a
      DRM-protected one and the confirmation to any other. */
  predicate Inv(s: Session)
  {
    match s.dialog
    case NoDialog => true
    case DrmAlert(st) => s.detected == Some(st) && st.streamType == DrmProtected
    case DownloadConfirmation(st) => s.detected == Some(st) && st.streamType != DrmProtected
  }

  /** One event. Download and Cancel exist only on the confirmation, OK only
      on the DRM alert; Download acquires the stream the confirmation was
      opened for. */
  function Step(s: Session, ev: UiEvent): (r: (Session, seq<Effect>))
    ensures Inv(s) ==> Inv(r.0)
    ensures forall e | e in r.1 && e.StartDownload? ::
      && ev == DownloadPressed
      && s.dialog == DownloadConfirmation(e.stream)
      && (Inv(s) ==> s.detected == Some(e.stream) && e.stream.streamType != DrmProtected)
      && e.downloader == Strategy(e.stream)
    ensures r.0.detected.None? || r.0.detected == s.detected
      || (ev.MediaFound? && r.0.detected == Some(ev.stream))
    ensures ev.MediaFound? ==> r == (Detect(s, ev.stream), [])
    ensures ev == DownloadPressed ==> (r.1 != [] <==> s.dialog.DownloadConfirmation?)
  {
    match ev
    case MediaFound(stream) => (Detect(s, stream), [])
    case DownloadPressed => if s.dialog.DownloadConfirmation? then Acquire(s, s.dialog.stream) else (s, [])
    case CancelPressed => if s.dialog.DownloadConfirmation? then Stop(s) else (s, [])
    case OkPressed => if s.dialog.DrmAlert? then Stop(s) else (s, [])
    case StopPressed => Stop(s)
    case DownloadReturned(file, fileExists) => Complete(s, file, fileExists)
    case DownloadThrew => Stop(s)
    case Dismissed => (s.(dialog := NoDialog), [])
  }

  /** Events one after another, with everything they asked for in order. */
  function Steps(s: Session, evs: seq<UiEvent>): (Session, seq<Effect>)
    decreases |evs|
  {
    if evs == [] then (s, [])
    else
      var (s1, e1) := Step(s, evs[0]);
      var (s2, e2) := Steps(s1, evs[1..]);
      (s2, e1 + e2)
  }

  /** The streams a run of events could have recorded: the one already
      recorded and those the detections carry. */
  function Offered(s: Session, evs: seq<UiEvent>): set<MediaStream>
  {
    (if s.detected.Some? then {s.detected.value} else {})
      + set i | 0 <= i < |evs| && evs[i].MediaFound? :: evs[i].stream
  }

  /** Over any run of events, every download names a stream that was
      detected, never a DRM-protected one, with the downloader its type
      calls for. */
  lemma {:induction false} DrmNeverDownloaded(s: Session, evs: seq<UiEvent>)
    requires Inv(s)
    ensures Inv(Steps(s, evs).0)
    ensures forall e | e in Steps(s, evs).1 && e.StartDownload? ::
      && e.stream.streamType != DrmProtected
      && e.downloader == Strategy(e.stream)
      && e.stream in Offered(s, evs)
    decreases |evs|
  {
    if evs != [] {
      var (s1, e1) := Step(s, evs[0]);
      DrmNeverDownloaded(s1, evs[1..]);
      forall st | st in Offered(s1, evs[1..]) ensures st in Offered(s, evs) {
        if s1.detected.Some? && st == s1.detected.value {
          if s1.detected != s.detected {
            assert evs[0] == MediaFound(st);
          }
        } else {
          var i :| 0 <= i < |evs[1..]| && evs[1..][i].MediaFound? && evs[1..][i].stream == st;
          assert evs[i + 1] == evs[1..][i];
        }
      }
    }
  }

  /** A dialog closed without a button runs no handler: the stream stays
      recorded, so later detections are ignored and Download does nothing
      until the analysis is stopped. */
  lemma DismissedKeepsGateClosed(s: Session, stream: MediaStream)
    requires s.detected.Some?
    ensures var d := Step(s, Dismissed).0;
      && d.detected == s.detected && d.status == s.status && d.dialog == NoDialog
      && Step(d, MediaFound(stream)) == (d, [])
      && Step(d, DownloadPressed) == (d, [])
  {
  }

  /** Nothing is downloaded unless a confirmation is answered with Download. */
  lemma {:induction false} NoDownloadWithoutConfirmation(s: Session, evs: seq<UiEvent>)
    requires DownloadPressed !in evs
    ensures forall e | e in Steps(s, evs).1 :: !e.StartDownload?
    decreases |evs|
  {
    if evs != [] {
      assert evs[0] in evs;
      assert forall x | x in evs[1..] :: x in evs;
      NoDownloadWithoutConfirmation(Step(s, evs[0]).0, evs[1..]);
    }
  }

  /** The detections of a session, one after another. */
  function DetectAll(s: Session, streams: seq<MediaStream>): Session
    decreases |streams|
  {
    if |streams| == 0 then s else DetectAll(Detect(s, streams[0]), streams[1..])
  }

  /** Only the first detection of a session is acted on: whatever follows it
      until the session is stopped leaves the session as the first left it. */
  lemma {:induction false} OnlyFirstDetection(s: Session, streams: seq<MediaStream>)
    requires s.detected.None? && |streams| > 0
    ensures DetectAll(s, streams) == Detect(s, streams[0])
    ensures DetectAll(s, streams).detected == Some(streams[0])
  {
    LaterDetectionsIgnored(Detect(s, streams[0]), streams[1..]);
  }

  lemma {:induction false} LaterDetectionsIgnored(s: Session, streams: seq<MediaStream>)
    requires s.detected.Some?
    ensures DetectAll(s, streams) == s
    decreases |streams|
  {
    if |streams| > 0 {
      LaterDetectionsIgnored(Detect(s, streams[0]), streams[1..]);
    }
  }

  /** After a stop the gate is open again: the next detection is recorded. */
  lemma StopReopensGate(s: Session, stream: MediaStream)
    ensures Detect(Stop(s).0, stream).detected == Some(stream)
  {
  }

  // ---------------------------------------------------------------------------
  // The activity

  class ResearchActivity {
    var detectedStream: Option<MediaStream>
    var dialog: Dialog
    var status: Status
    /** What the handlers have asked of the services, in order. */
    var effects: seq<Effect>

    function State(): Session
      reads this
    {
      Session(detectedStream, dialog, status)
    }

    constructor ()
      ensures State() == START && effects == []
    {
      detectedStream, dialog, status, effects := None, NoDialog, Idle, [];
    }

    /** `onMediaDetected`; returns whether the detection was taken. */
    method OnMediaDetected(stream: MediaStream) returns (taken: bool)
      modifies this
      ensures taken <==> old(detectedStream).None?
      ensures State() == Detect(old(State()), stream) && effects == old(effects)
    {
      if detectedStream.Some? {
        return false;
      }
      detectedStream := Some(stream);
      status := Detected(stream.streamType);
      if stream.streamType == DrmProtected {
        dialog := DrmAlert(stream);
      } else {
        dialog := DownloadConfirmation(stream);
      }
      taken := true;
    }

    /** `stopAnalysis`; also what OK on the DRM alert and Cancel on the
        confirmation do, and what the acquisition's exception handler ends with. */
    method StopAnalysis()
      modifies this
      ensures State() == Stop(old(State())).0
      ensures effects == old(effects) + Stop(old(State())).1
    {
      status := Idle;
      effects := effects + [AnalysisStopped];
      detectedStream := None;
      dialog := NoDialog;
    }

    /** `startAcquisition`: the segmented downloader for adaptive streams, the
        direct one otherwise. */
    method StartAcquisition(stream: MediaStream)
      modifies this
      ensures State() == Acquire(old(State()), stream).0
      ensures effects == old(effects) + Acquire(old(State()), stream).1
    {
      status := Downloading;
      dialog := NoDialog;
      var downloader := if stream.streamType == AdaptiveStream then Segmented else Direct;
      effects := effects + [StartDownload(downloader, stream)];
    }

    /** "Download" on the confirmation: acquire the stream it was opened for. */
    method PressDownload()
      modifies this
      ensures State() == Step(old(State()), DownloadPressed).0
      ensures effects == old(effects) + Step(old(State()), DownloadPressed).1
    {
      if dialog.DownloadConfirmation? {
        StartAcquisition(dialog.stream);
      }
    }

    /** "Cancel" on the confirmation. */
    method PressCancel()
      modifies this
      ensures State() == Step(old(State()), CancelPressed).0
      ensures effects == old(effects) + Step(old(State()), CancelPressed).1
    {
      if dialog.DownloadConfirmation? {
        StopAnalysis();
      }
    }

    /** "OK" on the DRM alert. */
    method PressOk()
      modifies this
      ensures State() == Step(old(State()), OkPressed).0
      ensures effects == old(effects) + Step(old(State()), OkPressed).1
    {
      if dialog.DrmAlert? {
        StopAnalysis();
      }
    }

    /** The open dialog closed by Back or a tap outside it; no handler runs. */
    method DismissDialog()
      modifies this
      ensures State() == Step(old(State()), Dismissed).0
      ensures effects == old(effects) + Step(old(State()), Dismissed).1
    {
      dialog := NoDialog;
    }

    /** `onDownloadComplete`: Completed when the file is there, Failed
        otherwise, and in both cases `stopAnalysis`. */
    method OnDownloadComplete(file: Option<string>, fileExists: bool)
      modifies this
      ensures State() == Complete(old(State()), file, fileExists).0
      ensures effects == old(effects) + Complete(old(State()), file, fileExists).1
    {
      if file.Some? && fileExists {
        effects := effects + [Report(Completed)];
      } else {
        effects := effects + [Report(Failed)];
      }
      StopAnalysis();
    }
  }
}
