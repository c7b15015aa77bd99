// The editor component of App.tsx as one object: the React state variables
// become fields, each handler a method that updates them and states which
// fields it leaves alone. Browser objects (the players, the file, the
// recorder's output) are reduced to the values the handlers read from them,
// passed in as parameters, and to the player commands the handlers issue,
// returned as results.

module App {
  import opened Types
  import History
  import opened TimelineOps = Timeline
  import opened Playback
  import opened Style
  import opened Export
  import opened Status
  import Caption

  /** The source video once the export's player has loaded it, or the
      player's load error. */
  datatype VideoSource = Loaded(width: nat, height: nat) | LoadError

  /** What the analysis call settled with: the segments, or the rejection's
      message (`None` when the thrown value has no string message). */
  type AnalysisOutcome = Result<seq<Segment>, Option<string>>

  class Editor {
    var status: AppStatus
    var hasVideo: bool
    var segments: seq<Segment>
    var selected: Timeline
    var history: seq<Timeline>
    var historyIndex: int
    var filterEnabled: bool
    var subtitleLanguage: SubtitleLanguage
    var quality: Quality
    var format: Format
    var burnSubtitles: bool
    var exportProgress: real
    var error: Option<string>
    var hasFinalVideo: bool
    var keySelected: bool
    var style: CaptionStyle
    var editingIndex: Option<nat>
    var tempText: string
    var tempStart: real
    var tempEnd: real
    var previewText: string
    var previewing: bool
    var activeClip: int

    /** The history with its cursor. */
    function HistoryState(): History.State
      reads this
    {
      History.State(history, historyIndex)
    }

    /** The history keeps its bounded-stack invariant, and the timeline on
        screen is the snapshot under the cursor. */
    predicate Valid()
      reads this
    {
      HistoryState().Valid() && selected == HistoryState().Current()
    }

    /** The values the component mounts with. */
    constructor()
      ensures Valid() && HistoryState() == History.Initial()
      ensures status == Idle && !hasVideo && segments == [] && selected == []
      ensures filterEnabled && subtitleLanguage == Auto && quality == Q1080 && format == WebM && burnSubtitles
      ensures exportProgress == 0.0 && error.None? && !hasFinalVideo && keySelected && style == Default()
      ensures editingIndex.None? && tempText == "" && tempStart == 0.0 && tempEnd == 0.0
      ensures previewText == "" && !previewing && activeClip == -1
    {
      status, hasVideo, segments, selected := Idle, false, [], [];
      history, historyIndex := [[]], 0;
      filterEnabled, subtitleLanguage, quality, format, burnSubtitles := true, Auto, Q1080, WebM, true;
      exportProgress, error, hasFinalVideo, keySelected := 0.0, None, false, true;
      style := Default();
      editingIndex, tempText, tempStart, tempEnd := None, "", 0.0, 0.0;
      previewText, previewing, activeClip := "", false, -1;
    }

    /** `updateSegmentsWithHistory`: copy the history up to the cursor, push
        the new timeline, drop the oldest entry when over the cap (leaving
        the cursor where it was) or else move the cursor to the end; the new
        timeline goes on screen. */
    method UpdateSegmentsWithHistory(newSegments: Timeline)
      requires Valid()
      modifies this
      ensures Valid() && selected == newSegments
      ensures HistoryState() == History.Commit(old(HistoryState()), newSegments)
      ensures unchanged(this`status, this`hasVideo, this`segments, this`filterEnabled, this`subtitleLanguage,
        this`quality, this`format, this`burnSubtitles, this`exportProgress, this`error, this`hasFinalVideo,
        this`keySelected, this`style, this`editingIndex, this`tempText, this`tempStart, this`tempEnd,
        this`previewText, this`previewing, this`activeClip)
    {
      var newHistory := history[..historyIndex + 1];
      newHistory := newHistory + [newSegments];
      if |newHistory| > History.MaxHistory {
        newHistory := newHistory[1..];
      } else {
        historyIndex := |newHistory| - 1;
      }
      history := newHistory;
      selected := newSegments;
    }

    /** The undo button: step back when there is an older snapshot and show it. */
    method Undo()
      requires Valid()
      modifies this
      ensures Valid()
      ensures HistoryState() == History.Undo(old(HistoryState()))
      ensures unchanged(this`status, this`hasVideo, this`segments, this`history, this`filterEnabled,
        this`subtitleLanguage, this`quality, this`format, this`burnSubtitles, this`exportProgress, this`error,
        this`hasFinalVideo, this`keySelected, this`style, this`editingIndex, this`tempText, this`tempStart,
        this`tempEnd, this`previewText, this`previewing, this`activeClip)
    {
      if historyIndex > 0 {
        var newIndex := historyIndex - 1;
        historyIndex := newIndex;
        selected := history[newIndex];
      }
    }

    /** The redo button: step forward when there is a newer snapshot and show it. */
    method Redo()
      requires Valid()
      modifies this
      ensures Valid()
      ensures HistoryState() == History.Redo(old(HistoryState()))
      ensures unchanged(this`status, this`hasVideo, this`segments, this`history, this`filterEnabled,
        this`subtitleLanguage, this`quality, this`format, this`burnSubtitles, this`exportProgress, this`error,
        this`hasFinalVideo, this`keySelected, this`style, this`editingIndex, this`tempText, this`tempStart,
        this`tempEnd, this`previewText, this`previewing, this`activeClip)
    {
      if historyIndex < |history| - 1 {
        var newIndex := historyIndex + 1;
        historyIndex := newIndex;
        selected := history[newIndex];
      }
    }

    /** A click on a catalogue segment: the main player seeks to the
        segment's start and plays, and the segment is toggled on the
        timeline. */
    method ToggleSegment(seg: Segment) returns (seek: real, play: bool)
      requires Valid()
      modifies this
      ensures Valid() && seek == seg.startTime && play
      ensures HistoryState() == History.Commit(old(HistoryState()), ToggleSelect(old(selected), seg))
      ensures unchanged(this`status, this`hasVideo, this`segments, this`filterEnabled, this`subtitleLanguage,
        this`quality, this`format, this`burnSubtitles, this`exportProgress, this`error, this`hasFinalVideo,
        this`keySelected, this`style, this`editingIndex, this`tempText, this`tempStart, this`tempEnd,
        this`previewText, this`previewing, this`activeClip)
    {
      seek, play := seg.startTime, true;
      UpdateSegmentsWithHistory(ToggleSelect(selected, seg));
    }

    /** The trash button of clip `i`. */
    method RemoveClip(i: int)
      requires Valid()
      modifies this
      ensures Valid()
      ensures HistoryState() == History.Commit(old(HistoryState()), RemoveAt(old(selected), i))
      ensures unchanged(this`status, this`hasVideo, this`segments, this`filterEnabled, this`subtitleLanguage,
        this`quality, this`format, this`burnSubtitles, this`exportProgress, this`error, this`hasFinalVideo,
        this`keySelected, this`style, this`editingIndex, this`tempText, this`tempStart, this`tempEnd,
        this`previewText, this`previewing, this`activeClip)
    {
      UpdateSegmentsWithHistory(RemoveAt(selected, i));
    }

    /** The reset button: commit an empty timeline. */
    method ResetTimeline()
      requires Valid()
      modifies this
      ensures Valid() && selected == []
      ensures HistoryState() == History.Commit(old(HistoryState()), [])
      ensures unchanged(this`status, this`hasVideo, this`segments, this`filterEnabled, this`subtitleLanguage,
        this`quality, this`format, this`burnSubtitles, this`exportProgress, this`error, this`hasFinalVideo,
        this`keySelected, this`style, this`editingIndex, this`tempText, this`tempStart, this`tempEnd,
        this`previewText, this`previewing, this`activeClip)
    {
      UpdateSegmentsWithHistory([]);
    }

    /** A click on clip `index` of the timeline: open the dialog on a copy
        of the clip, make it the active clip, and seek the main player to
        its start. */
    method OpenEditModal(index: nat) returns (seek: real)
      requires index < |selected|
      modifies this
      ensures var seg := old(selected)[index];
        seek == seg.startTime && editingIndex == Some(index) && activeClip == index &&
        tempText == seg.text && tempStart == seg.startTime && tempEnd == seg.endTime
      ensures unchanged(this`status, this`hasVideo, this`segments, this`selected, this`history,
        this`historyIndex, this`filterEnabled, this`subtitleLanguage, this`quality, this`format,
        this`burnSubtitles, this`exportProgress, this`error, this`hasFinalVideo, this`keySelected, this`style,
        this`previewText, this`previewing)
    {
      var seg := selected[index];
      editingIndex := Some(index);
      tempText := seg.text;
      tempStart := seg.startTime;
      tempEnd := seg.endTime;
      activeClip := index;
      seek := seg.startTime;
    }

    /** Typing in the dialog: the text always changes; the end time shrinks
        when the text got shorter than the saved clip's caption. */
    method HandleTextChange(newText: string)
      modifies this
      ensures tempText == newText
      ensures tempEnd == ShrunkEndTime(selected, if editingIndex.Some? then editingIndex.value else -1,
                                       tempStart, old(tempEnd), newText)
      ensures unchanged(this`status, this`hasVideo, this`segments, this`selected, this`history,
        this`historyIndex, this`filterEnabled, this`subtitleLanguage, this`quality, this`format,
        this`burnSubtitles, this`exportProgress, this`error, this`hasFinalVideo, this`keySelected, this`style,
        this`editingIndex, this`tempStart, this`previewText, this`previewing, this`activeClip)
    {
      var editing := if editingIndex.Some? then editingIndex.value else -1;
      tempEnd := ShrunkEndTime(selected, editing, tempStart, tempEnd, newText);
      tempText := newText;
    }

    /** The dialog's save button: commit the edited clip and close the
        dialog; without an open dialog nothing happens. */
    method SaveClipEdit()
      requires Valid()
      modifies this
      ensures Valid()
      ensures old(editingIndex).None? ==> unchanged(this)
      ensures old(editingIndex).Some? ==>
        editingIndex.None? &&
        HistoryState() == History.Commit(old(HistoryState()),
          SaveEdit(old(selected), old(editingIndex).value, tempText, tempStart, tempEnd))
      ensures unchanged(this`status, this`hasVideo, this`segments, this`filterEnabled, this`subtitleLanguage,
        this`quality, this`format, this`burnSubtitles, this`exportProgress, this`error, this`hasFinalVideo,
        this`keySelected, this`style, this`tempText, this`tempStart, this`tempEnd, this`previewText,
        this`previewing, this`activeClip)
    {
      if editingIndex.None? {
        return;
      }
      UpdateSegmentsWithHistory(SaveEdit(selected, editingIndex.value, tempText, tempStart, tempEnd));
      editingIndex := None;
    }

    /** The dialog's close and back buttons. */
    method CloseEditModal()
      modifies this
      ensures editingIndex.None?
      ensures unchanged(this`status, this`hasVideo, this`segments, this`selected, this`history,
        this`historyIndex, this`filterEnabled, this`subtitleLanguage, this`quality, this`format,
        this`burnSubtitles, this`exportProgress, this`error, this`hasFinalVideo, this`keySelected, this`style,
        this`tempText, this`tempStart, this`tempEnd, this`previewText, this`previewing, this`activeClip)
    {
      editingIndex := None;
    }

    /** One animation-frame tick of `syncSubtitles` at player position
        `time`: the preview state and caption follow `Tick`, and the
        player commands are returned. */
    method SyncSubtitles(time: real) returns (seek: Option<real>, play: bool, pause: bool)
      modifies this
      ensures var r := Tick(PlayState(old(previewing), old(activeClip)), selected, segments, time);
        seek == r.seek && play == r.play && pause == r.pause &&
        PlayState(previewing, activeClip) == r.next && previewText == r.caption
      ensures unchanged(this`status, this`hasVideo, this`segments, this`selected, this`history,
        this`historyIndex, this`filterEnabled, this`subtitleLanguage, this`quality, this`format,
        this`burnSubtitles, this`exportProgress, this`error, this`hasFinalVideo, this`keySelected, this`style,
        this`editingIndex, this`tempText, this`tempStart, this`tempEnd)
    {
      var r := Tick(PlayState(previewing, activeClip), selected, segments, time);
      previewing := r.next.previewing;
      activeClip := r.next.activeClip;
      previewText := r.caption;
      seek, play, pause := r.seek, r.play, r.pause;
    }

    /** The "preview all" button. */
    method TogglePreview() returns (seek: Option<real>, play: bool)
      modifies this
      ensures var r := Playback.TogglePreview(PlayState(old(previewing), old(activeClip)), selected);
        seek == r.seek && play == r.play && PlayState(previewing, activeClip) == r.next
      ensures unchanged(this`status, this`hasVideo, this`segments, this`selected, this`history,
        this`historyIndex, this`filterEnabled, this`subtitleLanguage, this`quality, this`format,
        this`burnSubtitles, this`exportProgress, this`error, this`hasFinalVideo, this`keySelected, this`style,
        this`editingIndex, this`tempText, this`tempStart, this`tempEnd, this`previewText)
    {
      var r := Playback.TogglePreview(PlayState(previewing, activeClip), selected);
      previewing := r.next.previewing;
      activeClip := r.next.activeClip;
      seek, play := r.seek, r.play;
    }

    /** The style panel's reset button. */
    method ResetStyle()
      modifies this
      ensures style == Reset(old(style))
      ensures unchanged(this`status, this`hasVideo, this`segments, this`selected, this`history,
        this`historyIndex, this`filterEnabled, this`subtitleLanguage, this`quality, this`format,
        this`burnSubtitles, this`exportProgress, this`error, this`hasFinalVideo, this`keySelected,
        this`editingIndex, this`tempText, this`tempStart, this`tempEnd, this`previewText, this`previewing,
        this`activeClip)
    {
      style := Reset(style);
    }

    /** A file chosen at the upload screen (`None` when the picker returns
        nothing): warn about files over the limit, keep the video, start
        the analysis. */
    method ChooseFile(size: Option<nat>)
      modifies this
      ensures size.None? ==> unchanged(this)
      ensures size.Some? ==>
        hasVideo && status == After(FileChosen) &&
        error == (if size.value > OversizeLimit then Some(OversizeWarning) else old(error))
      ensures unchanged(this`segments, this`selected, this`history, this`historyIndex, this`filterEnabled,
        this`subtitleLanguage, this`quality, this`format, this`burnSubtitles, this`exportProgress,
        this`hasFinalVideo, this`keySelected, this`style, this`editingIndex, this`tempText, this`tempStart,
        this`tempEnd, this`previewText, this`previewing, this`activeClip)
    {
      if size.None? {
        return;
      }
      if size.value > OversizeLimit {
        error := Some(OversizeWarning);
      }
      hasVideo := true;
      status := Analyzing;
    }

    /** The analysis promise settling: the catalogue is replaced and the
        editor opens, or the failure is reported and the upload screen
        comes back (rejecting the key on an authentication failure). The
        timeline and its history are not touched. */
    method AnalysisSettled(outcome: AnalysisOutcome, authErrorText: string)
      modifies this
      ensures outcome.Success? ==>
        segments == outcome.value && status == After(AnalysisSucceeded) &&
        error == old(error) && keySelected == old(keySelected)
      ensures outcome.Failure? ==>
        var report := ClassifyFailure(outcome.error, authErrorText);
        segments == old(segments) && status == After(AnalysisFailed) && error == Some(report.error) &&
        keySelected == (old(keySelected) && !report.keyRejected)
      ensures unchanged(this`hasVideo, this`selected, this`history, this`historyIndex, this`filterEnabled,
        this`subtitleLanguage, this`quality, this`format, this`burnSubtitles, this`exportProgress,
        this`hasFinalVideo, this`style, this`editingIndex, this`tempText, this`tempStart, this`tempEnd,
        this`previewText, this`previewing, this`activeClip)
    {
      match outcome
      case Success(items) =>
        segments := items;
        status := Ready;
      case Failure(message) =>
        var report := ClassifyFailure(message, authErrorText);
        error := Some(report.error);
        if report.keyRejected {
          keySelected := false;
        }
        status := Idle;
    }

    /** `composeVideo`: nothing on an empty timeline; otherwise the status
        goes to generating with progress 0, and the export either renders
        (ending with progress 100, a result video and the result dialog) or
        reports the load failure and returns to the editor. */
    method ComposeVideo(source: VideoSource, isTypeSupported: string -> bool, measure: string -> Caption.Width,
                        frameTimes: seq<seq<real>>)
      returns (run: Option<ExportRun>)
      requires source.Loaded? ==> source.height > 0
      modifies this
      ensures |selected| == 0 ==> run.None? && unchanged(this)
      ensures |selected| > 0 && source.LoadError? ==>
        run.None? && status == After(ExportFailed) && exportProgress == 0.0 &&
        error == Some(VideoLoadFailed) && hasFinalVideo == old(hasFinalVideo)
      ensures |selected| > 0 && source.Loaded? ==>
        run == Some(ExpectedRun(selected, Settings(quality, format, burnSubtitles, style), source.width,
                                source.height, isTypeSupported, measure, frameTimes)) &&
        status == After(ExportSucceeded) && exportProgress == 100.0 && hasFinalVideo && error == old(error)
      ensures unchanged(this`hasVideo, this`segments, this`selected, this`history, this`historyIndex,
        this`filterEnabled, this`subtitleLanguage, this`quality, this`format, this`burnSubtitles,
        this`keySelected, this`style, this`editingIndex, this`tempText, this`tempStart, this`tempEnd,
        this`previewText, this`previewing, this`activeClip)
    {
      if |selected| == 0 {
        return None;
      }
      status := Generating;
      exportProgress := 0.0;
      match source
      case LoadError =>
        error := Some(VideoLoadFailed);
        status := Ready;
        run := None;
      case Loaded(width, height) =>
        var r := RenderExport(width, height, isTypeSupported, measure, frameTimes);
        run := Some(r);
    }

    /** The loaded branch of `composeVideo`: render the timeline with the
        panel's settings, then show the result at 100%. */
    method RenderExport(width: nat, height: nat, isTypeSupported: string -> bool, measure: string -> Caption.Width,
                        frameTimes: seq<seq<real>>)
      returns (run: ExportRun)
      requires height > 0
      modifies this
      ensures run == ExpectedRun(selected, Settings(quality, format, burnSubtitles, style), width, height,
                                 isTypeSupported, measure, frameTimes)
      ensures status == After(ExportSucceeded) && exportProgress == 100.0 && hasFinalVideo
      ensures unchanged(this`hasVideo, this`segments, this`selected, this`history, this`historyIndex,
        this`filterEnabled, this`subtitleLanguage, this`quality, this`format, this`burnSubtitles, this`error,
        this`keySelected, this`style, this`editingIndex, this`tempText, this`tempStart, this`tempEnd,
        this`previewText, this`previewing, this`activeClip)
    {
      run := Render(selected, Settings(quality, format, burnSubtitles, style), width, height,
                    isTypeSupported, measure, frameTimes);
      exportProgress := 100.0;
      hasFinalVideo := true;
      status := Completed;
    }

    /** The result dialog's back and close buttons. */
    method BackToEditor()
      modifies this
      ensures status == After(Event.BackToEditor)
      ensures unchanged(this`hasVideo, this`segments, this`selected, this`history, this`historyIndex,
        this`filterEnabled, this`subtitleLanguage, this`quality, this`format, this`burnSubtitles,
        this`exportProgress, this`error, this`hasFinalVideo, this`keySelected, this`style, this`editingIndex,
        this`tempText, this`tempStart, this`tempEnd, this`previewText, this`previewing, this`activeClip)
    {
      status := Ready;
    }

    /** The error banner's close button. */
    method DismissError()
      modifies this
      ensures error.None?
      ensures unchanged(this`status, this`hasVideo, this`segments, this`selected, this`history,
        this`historyIndex, this`filterEnabled, this`subtitleLanguage, this`quality, this`format,
        this`burnSubtitles, this`exportProgress, this`hasFinalVideo, this`keySelected, this`style,
        this`editingIndex, this`tempText, this`tempStart, this`tempEnd, this`previewText, this`previewing,
        this`activeClip)
    {
      error := None;
    }
  }

  /** The dialog's undo button can shorten the timeline under an open
      dialog: with one clip committed to a fresh history and its dialog
      open, undo leaves no clip at the dialog's index, so the save as
      written adds an entry without id, while `SaveEdit` keeps the empty
      timeline. */
  lemma UndoInDialogThenSave(a: Segment, text: string, start: real, end: real)
    ensures var h := History.Undo(History.Commit(History.Initial(), [a]));
      h.Current() == [] &&
      SaveEditAsWritten(h.Current(), 0, text, start, end) == [Bare(text, start, end)] &&
      SaveEdit(h.Current(), 0, text, start, end) == []
  {
    var h := History.Undo(History.Commit(History.Initial(), [a]));
    assert h.snapshots == [[], [a]] && h.cursor == 0;
    assert Slots([]) + Holes(0) == [];
  }
}
