// The export sequencer of App.tsx composeVideo, after the source video's
// metadata has loaded: output size and bitrate from the chosen quality,
// the recorder MIME type, the recorder's start/pause/resume/stop
// discipline, the per-segment render loop with its progress values and the
// burned-in caption's pen and layout. Time runs as the sequence of player
// positions observed at successive animation frames, one sequence per clip.

module Export {
  import opened Types
  import opened Caption
  import opened Style

  datatype Quality = Q480 | Q720 | Q1080 | Q1440
  {
    function Label(): string {
      match this
      case Q480 => "480p"
      case Q720 => "720p"
      case Q1080 => "1080p"
      case Q1440 => "1440p"
    }
  }

  datatype Format = WebM | Mp4
  {
    function Extension(): string {
      match this
      case WebM => "webm"
      case Mp4 => "mp4"
    }
  }

  /** Output height in pixels for a quality label: 480, 720 and 1440 for
      their labels, 1080 for anything else. */
  function TargetHeight(quality: string): nat
  {
    if quality == "480p" then 480
    else if quality == "720p" then 720
    else if quality == "1440p" then 1440
    else 1080
  }

  /** Each quality gets its own height, and the label's number is that height. */
  lemma QualityHeights(q: Quality, q': Quality)
    ensures TargetHeight(Q480.Label()) == 480 && TargetHeight(Q720.Label()) == 720
    ensures TargetHeight(Q1080.Label()) == 1080 && TargetHeight(Q1440.Label()) == 1440
    ensures TargetHeight(q.Label()) == TargetHeight(q'.Label()) ==> q == q'
    ensures (q == Q1440 || q' == Q480) ==> TargetHeight(q'.Label()) <= TargetHeight(q.Label())
  {
  }

  /** Requested video bits per second: ten thousand per output line. */
  function Bitrate(targetHeight: nat): nat {
    targetHeight * 10000
  }

  /** A higher output height never asks for fewer bits per second. */
  lemma BitrateMonotone(h: nat, h': nat)
    requires h <= h'
    ensures Bitrate(h) <= Bitrate(h')
  {
  }

  /** The canvas: the source frame scaled to the target height, its width
      truncated to whole pixels. */
  datatype Canvas = Canvas(width: nat, height: nat)

  function CanvasFor(targetHeight: nat, videoWidth: nat, videoHeight: nat): (c: Canvas)
    requires videoHeight > 0
    ensures c.height == targetHeight
    ensures c.width * videoHeight <= videoWidth * targetHeight < (c.width + 1) * videoHeight
  {
    var width := videoWidth * targetHeight / videoHeight;
    DivBounds(videoWidth * targetHeight, videoHeight);
    Canvas(width, targetHeight)
  }

  lemma DivBounds(a: nat, b: nat)
    requires b > 0
    ensures (a / b) * b <= a < (a / b + 1) * b
  {
  }

  /** The MIME type asked for: MP4, or WebM with VP8 video and Opus audio. */
  function PreferredMime(f: Format): string {
    if f == Mp4 then "video/mp4" else "video/webm;codecs=vp8,opus"
  }

  const FallbackMime: string := "video/webm"

  /** The recorder's MIME type: the preferred one when the browser supports
      it, plain WebM otherwise. */
  function RecorderMime(f: Format, isTypeSupported: string -> bool): string
  {
    if isTypeSupported(PreferredMime(f)) then PreferredMime(f) else FallbackMime
  }

  /** Whatever the browser supports, the recording is WebM or the format
      asked for; WebM output is always WebM. */
  lemma MimeFallsBackToWebM(f: Format, isTypeSupported: string -> bool)
    ensures var m := RecorderMime(f, isTypeSupported);
      m == PreferredMime(f) || m == FallbackMime
    ensures f == WebM ==> RecorderMime(f, isTypeSupported)[..10] == "video/webm"
    ensures f == Mp4 && !isTypeSupported("video/mp4") ==> RecorderMime(f, isTypeSupported) == "video/webm"
  {
  }

  /** The download link's file name: the prefix, the quality label, and
      the extension of the format chosen in the panel. Since no label
      contains a dot, the name determines the quality and the format. */
  function DownloadName(q: Quality, f: Format): (name: string)
    ensures |name| > 10 + |f.Extension()| && name[..9] == "NovaClip_"
    ensures name[|name| - |f.Extension()| - 1..] == "." + f.Extension()
    ensures name[9..|name| - |f.Extension()| - 1] == q.Label()
  {
    var name := "NovaClip_" + q.Label() + "." + f.Extension();
    assert |q.Label()| >= 4;
    assert name[|name| - |f.Extension()| - 1..] == "." + f.Extension();
    assert name[9..|name| - |f.Extension()| - 1] == q.Label();
    name
  }

  /** Different panel choices never produce the same file name. */
  lemma DownloadNameInjective(q: Quality, f: Format, q': Quality, f': Format)
    requires DownloadName(q, f) == DownloadName(q', f')
    ensures q == q' && f == f'
  {
    var name := DownloadName(q, f);
    FourthFromEnd(q, f);
    FourthFromEnd(q', f');
    assert q.Label() == name[9..|name| - |f.Extension()| - 1] == q'.Label();
  }

  /** The fourth character from the end tells the formats apart. */
  lemma FourthFromEnd(q: Quality, f: Format)
    ensures var name := DownloadName(q, f);
      name[|name| - 4] == (if f == WebM then 'w' else '.')
  {
    var name := DownloadName(q, f);
    assert name[|name| - |f.Extension()| - 1..] == "." + f.Extension();
  }

  /** The file name follows the panel, not the recorder: when the browser
      cannot record MP4, the recording is plain WebM but the download is
      still named `.mp4`. */
  lemma DownloadNameIgnoresFallback(q: Quality, isTypeSupported: string -> bool)
    requires !isTypeSupported("video/mp4")
    ensures RecorderMime(Mp4, isTypeSupported) == FallbackMime
    ensures var name := DownloadName(q, Mp4);
      name[|name| - 4..] == ".mp4"
  {
    var name := DownloadName(q, Mp4);
    assert Mp4.Extension() == "mp4";
    assert name[|name| - |Mp4.Extension()| - 1..] == ".mp4";
  }

  // ---------------------------------------------------------------------
  // The burned-in caption

  /** The canvas drawing state set before `wrapText` is called. */
  datatype Pen = Pen(
    fontSize: real,
    lineWidth: real,
    fontWeight: int,
    fontFamily: string,
    strokeColor: string,
    fillColor: string,
    shadowColor: string,
    shadowBlur: real,
    bgColor: string,
    bgOpacity: real)

  function MaxReal(a: real, b: real): real { if a >= b then a else b }

  /** Font size: a twentieth of the canvas height in whole pixels, at least
      16, times the size factor. */
  function FontSize(canvasHeight: nat, sizeScale: real): real {
    MaxReal(16.0, (canvasHeight / 20) as real) * sizeScale
  }

  function PenFor(c: Canvas, s: CaptionStyle): Pen {
    var fontSize := FontSize(c.height, s.sizeScale);
    Pen(fontSize, MaxReal(2.0, fontSize / 8.0), s.fontWeight, s.fontFamily, s.strokeColor, s.color,
        s.shadowColor, s.shadowBlur, s.bgColor, s.bgOpacity)
  }

  /** With a non-negative size factor the font is at least 16 px times the
      factor and at least a twentieth of the canvas (rounded down) times the
      factor; the outline is at least 2 px and at least an eighth of the
      font size. At the default factor a 1080-line canvas gets 54 px text. */
  lemma PenSizes(c: Canvas, s: CaptionStyle)
    requires s.sizeScale >= 0.0
    ensures var p := PenFor(c, s);
      p.fontSize >= 16.0 * s.sizeScale && p.fontSize >= (c.height / 20) as real * s.sizeScale &&
      p.lineWidth >= 2.0 && p.lineWidth >= p.fontSize / 8.0
    ensures s.sizeScale == 1.0 && c.height == 1080 ==> PenFor(c, s).fontSize == 54.0
  {
    FontSizeBounds(c.height, s.sizeScale);
  }

  lemma FontSizeBounds(h: nat, k: real)
    requires k >= 0.0
    ensures FontSize(h, k) >= 16.0 * k && FontSize(h, k) >= (h / 20) as real * k
  {
    var lines := (h / 20) as real;
    if lines >= 16.0 {
      ScaleMonotone(lines, 16.0, k);
    } else {
      ScaleMonotone(16.0, lines, k);
    }
  }

  lemma ScaleMonotone(a: real, b: real, k: real)
    requires a >= b && k >= 0.0
    ensures a * k >= b * k
  {
    assert a * k - b * k == (a - b) * k;
  }

  /** A caption as drawn on one frame: the pen and the wrapped layout. */
  datatype BurnedCaption = BurnedCaption(pen: Pen, layout: Layout)

  /** The layout `wrapText` produces for these arguments. */
  function LayoutOf(text: string, measure: string -> Width, x: real, y: real, maxWidth: real, lineHeight: real, drawBg: bool): Layout
  {
    var lines := Wrap(text, measure, maxWidth);
    WrapProperties(text, measure, maxWidth);
    Layout(lines, if drawBg then Some(BackgroundBox(lines, measure, x, y, lineHeight)) else None,
           DrawSequence(lines, 0, x, y, lineHeight))
  }

  /** The caption of a clip: centred horizontally, anchored at 88% of the
      height, wrapped at 90% of the width, 1.3 font sizes per line, with a
      background box when the background opacity is positive. */
  function CaptionFor(text: string, c: Canvas, s: CaptionStyle, measure: string -> Width): BurnedCaption {
    var pen := PenFor(c, s);
    BurnedCaption(pen, LayoutOf(text, measure, c.width as real / 2.0, c.height as real * 0.88,
                                c.width as real * 0.9, pen.fontSize * 1.3, s.bgOpacity > 0.0))
  }

  // ---------------------------------------------------------------------
  // Progress

  function MinReal(a: real, b: real): real { if a <= b then a else b }

  /** The progress value set on a frame: `min(99, elapsed / total * 100)`.
      With a zero total JavaScript divides to an infinity or NaN: a positive
      elapsed time then still gives 99, anything else is not a number
      (`None`). */
  function FrameProgress(elapsed: real, total: real): (r: Option<real>)
    ensures r.Some? ==> r.value <= 99.0
    ensures total > 0.0 ==> r.Some?
  {
    if total != 0.0 then Some(MinReal(99.0, elapsed / total * 100.0))
    else if elapsed > 0.0 then Some(99.0)
    else None
  }

  /** For a positive total, more elapsed time never means less progress. */
  lemma FrameProgressMonotone(e: real, e': real, total: real)
    requires total > 0.0 && e <= e'
    ensures FrameProgress(e, total).value <= FrameProgress(e', total).value
  {
    assert e / total <= e' / total;
  }

  // ---------------------------------------------------------------------
  // The render loop, as a specification

  /** One rendered frame: which clip, the player position, the elapsed
      export time (`processedDuration` plus the position within the clip),
      the progress value set, whether the recorder was recording, and the
      caption drawn (none without burn-in). */
  datatype Frame = Frame(
    clip: nat,
    time: real,
    elapsed: real,
    progress: Option<real>,
    recording: bool,
    caption: Option<BurnedCaption>)

  /** The frame drawn at player position `t` of a clip. */
  function FrameAt(clip: nat, seg: Segment, t: real, processed: real, total: real, caption: Option<BurnedCaption>): Frame {
    var elapsed := processed + (t - seg.startTime);
    Frame(clip, t, elapsed, FrameProgress(elapsed, total), true, caption)
  }

  /** The frames drawn for one clip: one per observed position until the
      first position at or past the clip's end (or until the player stops
      delivering positions). */
  function ClipFrames(clip: nat, seg: Segment, times: seq<real>, processed: real, total: real,
                      caption: Option<BurnedCaption>): seq<Frame>
    decreases |times|
  {
    if times == [] || times[0] >= seg.endTime then []
    else
      [FrameAt(clip, seg, times[0], processed, total, caption)] + ClipFrames(clip, seg, times[1..], processed, total, caption)
  }

  /** Observed positions for clip `k`; none when the input has no entry. */
  function TimesOf(frameTimes: seq<seq<real>>, k: nat): seq<real> {
    if k < |frameTimes| then frameTimes[k] else []
  }

  /** The export settings that shape the frames. */
  datatype Settings = Settings(quality: Quality, format: Format, burnSubtitles: bool, style: CaptionStyle)

  function CaptionOf(seg: Segment, c: Canvas, settings: Settings, measure: string -> Width): Option<BurnedCaption> {
    if settings.burnSubtitles then Some(CaptionFor(seg.text, c, settings.style, measure)) else None
  }

  /** All frames from clip `from` on, with `processed` seconds already done. */
  function AllFrames(selected: Timeline, frameTimes: seq<seq<real>>, from: nat, processed: real, total: real,
                     c: Canvas, settings: Settings, measure: string -> Width): seq<Frame>
    decreases |selected| - from
  {
    if from >= |selected| then []
    else
      var seg := selected[from];
      ClipFrames(from, seg, TimesOf(frameTimes, from), processed, total, CaptionOf(seg, c, settings, measure))
        + AllFrames(selected, frameTimes, from + 1, processed + seg.Duration(), total, c, settings, measure)
  }

  /** The progress values of a list of frames, in order. */
  function ProgressLog(frames: seq<Frame>): (r: seq<Option<real>>)
    ensures |r| == |frames| && forall k :: 0 <= k < |frames| ==> r[k] == frames[k].progress
  {
    seq(|frames|, k requires 0 <= k < |frames| => frames[k].progress)
  }

  // ---------------------------------------------------------------------
  // The recorder

  datatype RecorderState = Inactive | Recording | Paused

  datatype RecorderCall = Start | Pause | Resume | Stop

  /** The state after a call, or `None` where `MediaRecorder` throws an
      invalid-state error (start when not inactive; pause or resume when
      inactive). `stop` on an inactive recorder does nothing. */
  function Next(s: RecorderState, call: RecorderCall): Option<RecorderState> {
    match call
    case Start => if s == Inactive then Some(Recording) else None
    case Pause => if s == Inactive then None else Some(Paused)
    case Resume => if s == Inactive then None else Some(Recording)
    case Stop => Some(Inactive)
  }

  function Replay(s: RecorderState, calls: seq<RecorderCall>): Option<RecorderState>
    decreases |calls|
  {
    if calls == [] then Some(s)
    else match Next(s, calls[0])
         case None => None
         case Some(s') => Replay(s', calls[1..])
  }

  /** The calls of an export of `n` clips: start and pause at once, then a
      resume at each clip's start and a pause at its end, then stop. */
  function ClipCalls(n: nat): seq<RecorderCall> {
    if n == 0 then [] else [Resume, Pause] + ClipCalls(n - 1)
  }

  function ExportCalls(n: nat): seq<RecorderCall> {
    [Start, Pause] + ClipCalls(n) + [Stop]
  }

  lemma {:induction false} ReplayAppend(s: RecorderState, a: seq<RecorderCall>, b: seq<RecorderCall>)
    ensures Replay(s, a + b) == match Replay(s, a) case None => None case Some(s') => Replay(s', b)
    decreases |a|
  {
    if a == [] {
      assert a + b == b;
    } else {
      assert (a + b)[1..] == a[1..] + b;
      match Next(s, a[0])
      case None =>
      case Some(s') => ReplayAppend(s', a[1..], b);
    }
  }

  /** Between clips the recorder is paused: any number of resume/pause pairs
      from the paused state are legal and end paused. */
  lemma {:induction false} ClipCallsKeepPaused(n: nat)
    ensures Replay(Paused, ClipCalls(n)) == Some(Paused)
  {
    if n > 0 {
      ClipCallsKeepPaused(n - 1);
      ReplayAppend(Paused, [Resume, Pause], ClipCalls(n - 1));
      assert Replay(Paused, [Resume, Pause]) == Some(Paused) by {
        assert [Resume, Pause][1..] == [Pause];
        assert [Pause][1..] == [];
      }
    }
  }

  /** The export's recorder calls never hit an invalid state and leave the
      recorder inactive. */
  lemma ExportCallsLegal(n: nat)
    ensures Replay(Inactive, ExportCalls(n)) == Some(Inactive)
  {
    ClipCallsKeepPaused(n);
    ReplayAppend(Inactive, [Start, Pause], ClipCalls(n) + [Stop]);
    assert [Start, Pause] + ClipCalls(n) + [Stop] == [Start, Pause] + (ClipCalls(n) + [Stop]);
    assert Replay(Inactive, [Start, Pause]) == Some(Paused) by {
      assert [Start, Pause][1..] == [Pause];
      assert [Pause][1..] == [];
    }
    ReplayAppend(Paused, ClipCalls(n), [Stop]);
    assert [Stop][1..] == [];
  }

  /** A `MediaRecorder` reduced to its state; `calls` records what it was
      asked to do. Each method requires what the browser requires, so a
      caller that verifies never triggers an invalid-state error. */
  class Recorder {
    var state: RecorderState
    var calls: seq<RecorderCall>

    constructor()
      ensures state == Inactive && calls == []
    {
      state := Inactive;
      calls := [];
    }

    method Start()
      requires state == Inactive
      modifies this
      ensures state == Recording && calls == old(calls) + [RecorderCall.Start]
    {
      state := Recording;
      calls := calls + [RecorderCall.Start];
    }

    method Pause()
      requires state != Inactive
      modifies this
      ensures state == Paused && calls == old(calls) + [RecorderCall.Pause]
    {
      state := Paused;
      calls := calls + [RecorderCall.Pause];
    }

    method Resume()
      requires state != Inactive
      modifies this
      ensures state == Recording && calls == old(calls) + [RecorderCall.Resume]
    {
      state := Recording;
      calls := calls + [RecorderCall.Resume];
    }

    method Stop()
      modifies this
      ensures state == Inactive && calls == old(calls) + [RecorderCall.Stop]
    {
      state := Inactive;
      calls := calls + [RecorderCall.Stop];
    }
  }

  // ---------------------------------------------------------------------
  // The render loop, as executed

  /** What an export with loaded metadata produced. */
  datatype ExportRun = ExportRun(
    canvas: Canvas,
    mime: string,
    bitrate: nat,
    seeks: seq<real>,
    calls: seq<RecorderCall>,
    frames: seq<Frame>,
    progress: seq<Option<real>>)

  /** The clips' start times, the seek targets in order. */
  function StartTimes(selected: Timeline): (r: seq<real>)
    ensures |r| == |selected| && forall k :: 0 <= k < |selected| ==> r[k] == selected[k].startTime
  {
    seq(|selected|, k requires 0 <= k < |selected| => selected[k].startTime)
  }

  /** The frame loop of one clip, while the recorder records. */
  method RenderClip(recorder: Recorder, clip: nat, seg: Segment, times: seq<real>, processed: real, total: real,
                    caption: Option<BurnedCaption>)
    returns (frames: seq<Frame>)
    requires recorder.state == Recording
    ensures frames == ClipFrames(clip, seg, times, processed, total, caption)
  {
    frames := [];
    var j := 0;
    while j < |times| && times[j] < seg.endTime
      invariant 0 <= j <= |times|
      invariant frames + ClipFrames(clip, seg, times[j..], processed, total, caption)
             == ClipFrames(clip, seg, times, processed, total, caption)
    {
      ClipFramesStep(clip, seg, times, j, processed, total, caption);
      var elapsed := processed + (times[j] - seg.startTime);
      var progress := FrameProgress(elapsed, total);
      var frame := Frame(clip, times[j], elapsed, progress, recorder.state == Recording, caption);
      assert frame == FrameAt(clip, seg, times[j], processed, total, caption);
      frames := frames + [frame];
      j := j + 1;
    }
    assert j < |times| ==> times[j..][0] >= seg.endTime;
  }

  lemma ClipFramesStep(clip: nat, seg: Segment, times: seq<real>, j: nat, processed: real, total: real,
                       caption: Option<BurnedCaption>)
    requires j < |times| && times[j] < seg.endTime
    ensures ClipFrames(clip, seg, times[j..], processed, total, caption)
         == [FrameAt(clip, seg, times[j], processed, total, caption)]
            + ClipFrames(clip, seg, times[j + 1..], processed, total, caption)
  {
    assert times[j..][1..] == times[j + 1..];
  }

  lemma AllFramesStep(selected: Timeline, frameTimes: seq<seq<real>>, k: nat, processed: real, total: real,
                      c: Canvas, settings: Settings, measure: string -> Width)
    requires k < |selected|
    ensures AllFrames(selected, frameTimes, k, processed, total, c, settings, measure)
         == ClipFrames(k, selected[k], TimesOf(frameTimes, k), processed, total, CaptionOf(selected[k], c, settings, measure))
            + AllFrames(selected, frameTimes, k + 1, processed + (selected[k].endTime - selected[k].startTime),
                        total, c, settings, measure)
  {
  }

  /** What an export renders: the canvas scaled to the quality's height,
      the recorder type and bitrate, one seek per clip to its start, the
      recorder calls, every frame, and the progress values ending in 100. */
  function ExpectedRun(selected: Timeline, settings: Settings, videoWidth: nat, videoHeight: nat,
                       isTypeSupported: string -> bool, measure: string -> Width, frameTimes: seq<seq<real>>): ExportRun
    requires videoHeight > 0
  {
    var height := TargetHeight(settings.quality.Label());
    var canvas := CanvasFor(height, videoWidth, videoHeight);
    var frames := AllFrames(selected, frameTimes, 0, 0.0, TotalDuration(selected), canvas, settings, measure);
    ExportRun(canvas, RecorderMime(settings.format, isTypeSupported), Bitrate(height), StartTimes(selected),
              ExportCalls(|selected|), frames, ProgressLog(frames) + [Some(100.0)])
  }

  /** The body of `onloadedmetadata`: everything from sizing the canvas to
      the final progress of 100 and the stop of the recorder. */
  method Render(selected: Timeline, settings: Settings, videoWidth: nat, videoHeight: nat,
                isTypeSupported: string -> bool, measure: string -> Width, frameTimes: seq<seq<real>>)
    returns (run: ExportRun)
    requires videoHeight > 0
    ensures run == ExpectedRun(selected, settings, videoWidth, videoHeight, isTypeSupported, measure, frameTimes)
  {
    var height := TargetHeight(settings.quality.Label());
    var canvas := CanvasFor(height, videoWidth, videoHeight);
    var mime := RecorderMime(settings.format, isTypeSupported);
    var recorder := new Recorder();
    recorder.Start();
    recorder.Pause();
    var seeks, frames := RenderClips(recorder, selected, frameTimes, TotalDuration(selected), canvas, settings, measure);
    recorder.Stop();
    run := ExportRun(canvas, mime, Bitrate(height), seeks, recorder.calls, frames, ProgressLog(frames) + [Some(100.0)]);
  }

  /** The `for` loop over the clips: seek to the clip's start, resume, draw
      its frames, pause; `processedDuration` grows by each clip's length. */
  method RenderClips(recorder: Recorder, selected: Timeline, frameTimes: seq<seq<real>>, total: real, canvas: Canvas,
                     settings: Settings, measure: string -> Width)
    returns (seeks: seq<real>, frames: seq<Frame>)
    requires recorder.state == Paused
    modifies recorder
    ensures recorder.state == Paused && recorder.calls == old(recorder.calls) + ClipCalls(|selected|)
    ensures seeks == StartTimes(selected)
    ensures frames == AllFrames(selected, frameTimes, 0, 0.0, total, canvas, settings, measure)
  {
    var processed := 0.0;
    seeks := [];
    frames := [];
    ghost var whole := AllFrames(selected, frameTimes, 0, 0.0, total, canvas, settings, measure);
    var k := 0;
    while k < |selected|
      invariant 0 <= k <= |selected|
      invariant recorder.state == Paused
      invariant recorder.calls == old(recorder.calls) + ClipCalls(k)
      invariant processed == TotalDuration(selected[..k])
      invariant seeks == StartTimes(selected[..k])
      invariant frames + AllFrames(selected, frameTimes, k, processed, total, canvas, settings, measure) == whole
    {
      var seg := selected[k];
      seeks := seeks + [seg.startTime];
      var clipFrames := RecordClip(recorder, k, seg, TimesOf(frameTimes, k), processed, total,
                                   CaptionOf(seg, canvas, settings, measure));
      FramesAdvance(selected, frameTimes, k, processed, total, canvas, settings, measure, frames);
      frames := frames + clipFrames;
      processed := processed + (seg.endTime - seg.startTime);
      CallsStep(old(recorder.calls), k);
      PrefixStep(selected, k);
      k := k + 1;
    }
    assert selected[..k] == selected;
  }

  /** Appending clip `k`'s frames to the frames drawn so far leaves the
      frames of the clips after it still to be drawn. */
  lemma FramesAdvance(selected: Timeline, frameTimes: seq<seq<real>>, k: nat, processed: real, total: real,
                      c: Canvas, settings: Settings, measure: string -> Width, done: seq<Frame>)
    requires k < |selected|
    ensures done + AllFrames(selected, frameTimes, k, processed, total, c, settings, measure)
         == (done + ClipFrames(k, selected[k], TimesOf(frameTimes, k), processed, total, CaptionOf(selected[k], c, settings, measure)))
            + AllFrames(selected, frameTimes, k + 1, processed + (selected[k].endTime - selected[k].startTime),
                        total, c, settings, measure)
  {
    AllFramesStep(selected, frameTimes, k, processed, total, c, settings, measure);
  }

  /** One clip: resume the recorder, draw the clip's frames, pause it again. */
  method RecordClip(recorder: Recorder, clip: nat, seg: Segment, times: seq<real>, processed: real, total: real,
                    caption: Option<BurnedCaption>)
    returns (frames: seq<Frame>)
    requires recorder.state == Paused
    modifies recorder
    ensures recorder.state == Paused && recorder.calls == old(recorder.calls) + [Resume] + [Pause]
    ensures frames == ClipFrames(clip, seg, times, processed, total, caption)
  {
    recorder.Resume();
    frames := RenderClip(recorder, clip, seg, times, processed, total, caption);
    recorder.Pause();
  }

  lemma PrefixStep(selected: Timeline, k: nat)
    requires k < |selected|
    ensures TotalDuration(selected[..k + 1]) == TotalDuration(selected[..k]) + selected[k].Duration()
    ensures StartTimes(selected[..k + 1]) == StartTimes(selected[..k]) + [selected[k].startTime]
  {
    assert selected[..k + 1] == selected[..k] + [selected[k]];
    TotalDurationSnoc(selected[..k], selected[k]);
  }

  lemma CallsStep(prefix: seq<RecorderCall>, k: nat)
    ensures prefix + ClipCalls(k) + [Resume] + [Pause] == prefix + ClipCalls(k + 1)
  {
    ClipCallsSnoc(k);
  }

  lemma {:induction false} ClipCallsSnoc(k: nat)
    ensures ClipCalls(k) + [Resume, Pause] == ClipCalls(k + 1)
  {
    if k > 0 {
      ClipCallsSnoc(k - 1);
    }
  }

  // ---------------------------------------------------------------------
  // What the frames satisfy

  /** Every frame was drawn while the recorder was recording, and its
      progress value is the clamped ratio of its elapsed time. */
  lemma {:induction false} ClipFramesFacts(clip: nat, seg: Segment, times: seq<real>, processed: real, total: real,
                                           caption: Option<BurnedCaption>)
    ensures var fs := ClipFrames(clip, seg, times, processed, total, caption);
      forall f :: f in fs ==> (f.recording && f.clip == clip && f.caption == caption &&
        f.time < seg.endTime && f.elapsed == processed + (f.time - seg.startTime) &&
        f.progress == FrameProgress(f.elapsed, total))
    decreases |times|
  {
    if times != [] && times[0] < seg.endTime {
      ClipFramesFacts(clip, seg, times[1..], processed, total, caption);
    }
  }

  /** Every drawn frame was recorded, shows its own clip's caption, and has
      a progress value of at most 99 (or not a number). */
  lemma {:induction false} AllFramesRecordedAndCapped(selected: Timeline, frameTimes: seq<seq<real>>, from: nat,
                                                      processed: real, total: real, c: Canvas, settings: Settings,
                                                      measure: string -> Width)
    ensures forall f :: f in AllFrames(selected, frameTimes, from, processed, total, c, settings, measure) ==>
      f.recording && f.clip < |selected| && f.caption == CaptionOf(selected[f.clip], c, settings, measure) &&
      f.progress == FrameProgress(f.elapsed, total) && (f.progress.None? || f.progress.value <= 99.0)
    decreases |selected| - from
  {
    if from < |selected| {
      var seg := selected[from];
      ClipFramesFacts(from, seg, TimesOf(frameTimes, from), processed, total, CaptionOf(seg, c, settings, measure));
      AllFramesRecordedAndCapped(selected, frameTimes, from + 1, processed + seg.Duration(), total, c, settings, measure);
    }
  }

  predicate Nondecreasing(s: seq<real>) {
    forall i, j :: 0 <= i < j < |s| ==> s[i] <= s[j]
  }

  function ElapsedOf(frames: seq<Frame>): (r: seq<real>)
    ensures |r| == |frames| && forall k :: 0 <= k < |frames| ==> r[k] == frames[k].elapsed
  {
    seq(|frames|, k requires 0 <= k < |frames| => frames[k].elapsed)
  }

  /** Positions a clip's frames can take: from its start on, in order. */
  predicate SaneTimes(times: seq<real>, seg: Segment) {
    Nondecreasing(times) && forall k :: 0 <= k < |times| ==> times[k] >= seg.startTime
  }

  /** The frames of a clip follow the observed positions one for one, up to
      the first position at or past the clip's end. */
  lemma {:induction false} ClipFramesFollowTimes(clip: nat, seg: Segment, times: seq<real>, processed: real, total: real,
                                                 caption: Option<BurnedCaption>)
    ensures var fs := ClipFrames(clip, seg, times, processed, total, caption);
      |fs| <= |times| &&
      (|fs| < |times| ==> times[|fs|] >= seg.endTime) &&
      forall k :: 0 <= k < |fs| ==> (fs[k].time == times[k] && times[k] < seg.endTime &&
        fs[k].elapsed == processed + (times[k] - seg.startTime))
    decreases |times|
  {
    if times != [] && times[0] < seg.endTime {
      ClipFramesFollowTimes(clip, seg, times[1..], processed, total, caption);
    }
  }

  /** Within a clip whose observed positions start at the clip's start and
      never go back, elapsed time never decreases and stays within
      [processed, processed + duration). */
  lemma ClipElapsedOrdered(clip: nat, seg: Segment, times: seq<real>, processed: real, total: real,
                           caption: Option<BurnedCaption>)
    requires SaneTimes(times, seg)
    ensures var es := ElapsedOf(ClipFrames(clip, seg, times, processed, total, caption));
      Nondecreasing(es) && forall k :: 0 <= k < |es| ==> processed <= es[k] < processed + seg.Duration()
  {
    ClipFramesFollowTimes(clip, seg, times, processed, total, caption);
  }

  lemma NondecreasingConcat(a: seq<real>, b: seq<real>)
    requires Nondecreasing(a) && Nondecreasing(b)
    requires forall i, j :: 0 <= i < |a| && 0 <= j < |b| ==> a[i] <= b[j]
    ensures Nondecreasing(a + b)
  {
  }

  lemma ElapsedOfConcat(a: seq<Frame>, b: seq<Frame>)
    ensures ElapsedOf(a + b) == ElapsedOf(a) + ElapsedOf(b)
  {
  }

  /** Every clip ends no earlier than it starts, and its observed positions start at the clip's start and never go back. */
  predicate SaneFrameTimes(selected: Timeline, frameTimes: seq<seq<real>>) {
    forall k :: 0 <= k < |selected| ==>
      selected[k].startTime <= selected[k].endTime && SaneTimes(TimesOf(frameTimes, k), selected[k])
  }

  /** Across the whole export the elapsed time never decreases and never
      falls below the time already processed. */
  lemma {:induction false} AllElapsedOrdered(selected: Timeline, frameTimes: seq<seq<real>>, from: nat,
                                             processed: real, total: real, c: Canvas, settings: Settings,
                                             measure: string -> Width)
    requires SaneFrameTimes(selected, frameTimes)
    ensures var es := ElapsedOf(AllFrames(selected, frameTimes, from, processed, total, c, settings, measure));
      Nondecreasing(es) && forall k :: 0 <= k < |es| ==> processed <= es[k]
    decreases |selected| - from
  {
    if from < |selected| {
      var seg := selected[from];
      var cap := CaptionOf(seg, c, settings, measure);
      var next := processed + seg.Duration();
      var head := ClipFrames(from, seg, TimesOf(frameTimes, from), processed, total, cap);
      var tail := AllFrames(selected, frameTimes, from + 1, next, total, c, settings, measure);
      ClipElapsedOrdered(from, seg, TimesOf(frameTimes, from), processed, total, cap);
      AllElapsedOrdered(selected, frameTimes, from + 1, next, total, c, settings, measure);
      ElapsedOfConcat(head, tail);
      JoinOrdered(ElapsedOf(head), ElapsedOf(tail), processed, next);
    }
  }

  /** Two ordered runs, the first below `next` and the second from `next`
      on, join into one ordered run that stays at or above `processed`. */
  lemma JoinOrdered(a: seq<real>, b: seq<real>, processed: real, next: real)
    requires Nondecreasing(a) && Nondecreasing(b) && processed <= next
    requires forall k :: 0 <= k < |a| ==> processed <= a[k] < next
    requires forall k :: 0 <= k < |b| ==> next <= b[k]
    ensures Nondecreasing(a + b) && forall k :: 0 <= k < |a + b| ==> processed <= (a + b)[k]
  {
    NondecreasingConcat(a, b);
  }

  /** The frames' progress values, for a positive total duration: each is a
      number, at most 99, and none is smaller than an earlier one. */
  lemma ExportProgressNondecreasing(selected: Timeline, frameTimes: seq<seq<real>>, c: Canvas, settings: Settings,
                                    measure: string -> Width)
    requires SaneFrameTimes(selected, frameTimes) && TotalDuration(selected) > 0.0
    ensures var ps := ProgressLog(AllFrames(selected, frameTimes, 0, 0.0, TotalDuration(selected), c, settings, measure));
      (forall k :: 0 <= k < |ps| ==> ps[k].Some? && ps[k].value <= 99.0) &&
      forall i, j :: 0 <= i < j < |ps| ==> ps[i].value <= ps[j].value
  {
    var total := TotalDuration(selected);
    var fs := AllFrames(selected, frameTimes, 0, 0.0, total, c, settings, measure);
    AllElapsedOrdered(selected, frameTimes, 0, 0.0, total, c, settings, measure);
    AllFramesRecordedAndCapped(selected, frameTimes, 0, 0.0, total, c, settings, measure);
    forall i, j | 0 <= i < j < |fs|
      ensures fs[i].progress.value <= fs[j].progress.value
    {
      assert fs[i] in fs && fs[j] in fs;
      assert ElapsedOf(fs)[i] <= ElapsedOf(fs)[j];
      FrameProgressMonotone(fs[i].elapsed, fs[j].elapsed, total);
    }
  }
  /** The ordering above needs every clip to end no earlier than it
      starts, which the clip dialog does not enforce. Clips [0, 10],
      [20, 15] and [30, 40] total 15 seconds; with positions observed at
      the clip starts (and at 9 in the first clip) the progress reads 0,
      then 60, then 33.3: the reversed clip subtracts 5 seconds from the
      time already processed. */
  lemma ReversedClipLowersProgress(selected: Timeline, c: Canvas, settings: Settings, measure: string -> Width)
    requires |selected| == 3
    requires selected[0].startTime == 0.0 && selected[0].endTime == 10.0
    requires selected[1].startTime == 20.0 && selected[1].endTime == 15.0
    requires selected[2].startTime == 30.0 && selected[2].endTime == 40.0
    ensures var frameTimes := [[0.0, 9.0], [20.0], [30.0]];
      (forall k :: 0 <= k < |selected| ==> SaneTimes(TimesOf(frameTimes, k), selected[k])) &&
      ProgressLog(AllFrames(selected, frameTimes, 0, 0.0, TotalDuration(selected), c, settings, measure))
        == [Some(0.0), Some(60.0), Some(100.0 / 3.0)]
  {
    ReversedClipTotal(selected);
    ReversedClipFrames(selected, c, settings, measure);
    var fs := AllFrames(selected, [[0.0, 9.0], [20.0], [30.0]], 0, 0.0, 15.0, c, settings, measure);
    assert fs[0].progress == Some(0.0) && fs[1].progress == Some(60.0) && fs[2].progress == Some(100.0 / 3.0);
  }

  lemma ReversedClipTotal(selected: Timeline)
    requires |selected| == 3
    requires selected[0].Duration() == 10.0 && selected[1].Duration() == -5.0 && selected[2].Duration() == 10.0
    ensures TotalDuration(selected) == 15.0
  {
    assert selected[..2][..1] == selected[..1] && selected[..1][..0] == [];
    assert selected[..3] == selected;
    assert TotalDuration(selected[..1]) == 10.0;
    assert TotalDuration(selected[..2]) == 5.0;
  }

  /** The frames of the reversed-clip example: two in the first clip, none
      in the reversed one, one in the last with 5 seconds processed. */
  lemma ReversedClipFrames(selected: Timeline, c: Canvas, settings: Settings, measure: string -> Width)
    requires |selected| == 3
    requires selected[0].startTime == 0.0 && selected[0].endTime == 10.0
    requires selected[1].startTime == 20.0 && selected[1].endTime == 15.0
    requires selected[2].startTime == 30.0 && selected[2].endTime == 40.0
    ensures var fs := AllFrames(selected, [[0.0, 9.0], [20.0], [30.0]], 0, 0.0, 15.0, c, settings, measure);
      |fs| == 3 && fs[0].elapsed == 0.0 && fs[1].elapsed == 9.0 && fs[2].elapsed == 5.0 &&
      fs[0].progress == FrameProgress(0.0, 15.0) && fs[1].progress == FrameProgress(9.0, 15.0) &&
      fs[2].progress == FrameProgress(5.0, 15.0)
  {
    var frameTimes := [[0.0, 9.0], [20.0], [30.0]];
    var cap := CaptionOf(selected[0], c, settings, measure);
    var clip0 := ClipFrames(0, selected[0], [0.0, 9.0], 0.0, 15.0, cap);
    assert [0.0, 9.0][1..] == [9.0] && [9.0][1..] == [];
    assert clip0 == [FrameAt(0, selected[0], 0.0, 0.0, 15.0, cap), FrameAt(0, selected[0], 9.0, 0.0, 15.0, cap)];
    var clip2 := ClipFrames(2, selected[2], [30.0], 5.0, 15.0, CaptionOf(selected[2], c, settings, measure));
    assert clip2 == [FrameAt(2, selected[2], 30.0, 5.0, 15.0, CaptionOf(selected[2], c, settings, measure))];
    assert ClipFrames(1, selected[1], [20.0], 10.0, 15.0, CaptionOf(selected[1], c, settings, measure)) == [];
    assert AllFrames(selected, frameTimes, 3, 15.0, 15.0, c, settings, measure) == [];
    assert AllFrames(selected, frameTimes, 2, 5.0, 15.0, c, settings, measure) == clip2;
    assert AllFrames(selected, frameTimes, 1, 10.0, 15.0, c, settings, measure) == clip2;
    assert AllFrames(selected, frameTimes, 0, 0.0, 15.0, c, settings, measure) == clip0 + clip2;
  }
}
