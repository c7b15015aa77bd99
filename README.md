# NovaClip editor core in Dafny

NovaClip is a browser video editor. It sends an uploaded video to a
transcription model and gets back time-stamped caption segments. The user
picks segments into a timeline of clips, edits them under an undo history,
previews the cut, and exports it to a video file with the captions burned in.

This project models the logic of that editor, which lives in `App.tsx`. It
also models the transcription client's helpers in
`services/volcanoService.ts`. Each piece has the source's own form:

- `Types` holds the segment record, the timeline and the statuses. It also
  has the summed duration of a list of segments.
- `History` is the bounded undo stack as pure functions over a snapshot list
  and a cursor.
- `Timeline` holds the list transformations the editor commits: toggle by id,
  remove at an index, save an edit, shrink the end time, and the redundancy
  filter.
- `Playback` covers the preview. One animation-frame tick of the subtitle
  synchroniser is a step function that returns the new state and the player
  commands. The module also has the preview button and the clip-edit loop.
- `Caption` covers `wrapText`. The line splitting and the drawing are
  methods with loops, proved against functional specifications. The width
  of a string comes from a measuring function given as a parameter, like
  the canvas `measureText`.
- `Export` covers the export sequencer: the quality and canvas arithmetic,
  the recorder MIME type and bitrate, and the download name. It has a
  recorder class with its state discipline. The per-clip render loop is a
  method proved equal to a frame-by-frame specification. The lemmas prove
  that progress stays at or below 99 and never decreases during the loop.
- `Style` holds the caption style, its defaults, its reset button and
  `hexToRgba`. `JsString` holds the JavaScript string operations these need:
  `trim`, `slice`, `includes`, ASCII `toLowerCase`, `parseInt(_, 16)` and
  number-to-string.
- `Volcano` covers the transcription client:
  - the chunked byte-to-string loop before `btoa`;
  - the missing-key guard;
  - the code-fence clean-up of the reply;
  - the array check;
  - the in-place sort by start time.
- `Status` covers the application status and how an analysis failure is
  classified.
- `App.Editor` is the component as a class. The React state variables are
  its fields and each handler is a method. Every method states the new value
  of each field it writes and leaves every other field `unchanged`. The
  history fields keep the `History` invariant, and the displayed timeline is
  always the snapshot under the cursor.

Times are `real` seconds. These are inputs to the model rather than things
it computes:

- player positions;
- the browser's `MediaRecorder.isTypeSupported`;
- `btoa`;
- `JSON.parse`;
- the HTTP reply;
- the localized authentication message;
- the string-measuring function standing in for `measureText`.

The export's frames come in as one sequence of observed player positions per
clip.

The specification document describes the style reset as restoring every
parameter. The code (`App.tsx:791`) leaves the background colour and the font
family alone. The model follows the code (`Style.Reset`).

## Model

| member | source | states |
|---|---|---|
| Types.TotalDurationAppend | App.tsx:496 | the summed clip duration of a concatenation is the sum of the parts |
| Types.TotalDurationSnoc | App.tsx:585-587 | adding a clip at the end adds exactly its duration to the total |
| History.Initial | App.tsx:194-195 | the mount state is one empty snapshot with the cursor on it, which satisfies the history invariant |
| History.Commit | App.tsx:231-243 | a commit keeps the invariant (cursor in range, at most 50 snapshots), leaves the cursor on the last snapshot, and makes the new timeline current |
| History.Undo | App.tsx:245-251 | undo moves the cursor back by one only when it is above 0, never changes the snapshot list, and is the identity at 0 |
| History.Redo | App.tsx:253-259 | redo moves the cursor forward by one only below the last index, never changes the list, and is the identity at the end |
| History.CommitKeepsPast | App.tsx:232-240 | all snapshots up to the old cursor are kept and the redo future is dropped; on overflow the cursor was at 49, the list was full, and the oldest snapshot is the one dropped |
| History.UndoAfterCommit | App.tsx:231-251 | undo right after a commit shows the timeline that was current before it |
| History.CommitDiscardsRedo | App.tsx:231-259 | after a commit there is nothing to redo |
| History.UndoRedoInverse | App.tsx:245-259 | redo undoes undo and undo undoes redo wherever they move the cursor |
| History.Run | App.tsx:231-259 | every sequence of commits, undos and redos from the mount state keeps the history invariant |
| Timeline.Filter | App.tsx:582 | an element is in the filtered list exactly when it is in the input and satisfies the predicate, and the list is no longer than the input |
| Timeline.FilterCounts | App.tsx:582 | each element occurs in the filtered list as often as in the input if it satisfies the predicate, and never otherwise |
| Timeline.FilterSingleton | App.tsx:582 | a one-element list keeps its element exactly when it satisfies the predicate; with `FilterAppend` this fixes the kept elements' order as in the input |
| Timeline.FilterAppend | App.tsx:582 | filtering distributes over concatenation |
| Timeline.FilterKeepsAll | App.tsx:582 | a filter every element passes returns the list unchanged |
| Timeline.WithoutId | App.tsx:941 | removing an id leaves no segment with that id and keeps every other segment as often as it occurred |
| Timeline.WithoutIdSplit | App.tsx:941 | the clips around a clip are filtered on their own and the clip stays exactly when its id differs, so the remaining clips keep their order |
| Timeline.ToggleSelect | App.tsx:940-944 | afterwards the id is present exactly when it was absent before; a present id has all its segments removed, and an absent segment is appended at the end |
| Timeline.ToggleTwiceRestores | App.tsx:940-944 | toggling a segment whose id is absent twice gives back exactly the original timeline |
| Timeline.RemoveAt | App.tsx:904 | for an index in range, exactly that clip is deleted and the others keep their order; otherwise the timeline is unchanged |
| Timeline.SaveEdit | App.tsx:419-425 | only the edited clip changes, and only its text, start and end; every other clip and the length stay the same; an index past the end changes nothing (the corrected behaviour, see Findings) |
| Timeline.SaveEditAsWrittenDiffers | App.tsx:421-422 | the array write as written agrees with `SaveEdit` exactly when the index is in range; past the end it grows the list to index+1 with a bare entry at the index |
| Timeline.ShrinkOnlyWhenShorter | App.tsx:427-435 | a shorter caption sets the end to start + max(0.1, duration × new/old length); otherwise the end time stays |
| Timeline.HalfTextHalvesDuration | App.tsx:430-432 | halving the caption halves the clip's duration, with 0.1 s as the floor |
| Timeline.ShrinkNeverGrows | App.tsx:430-432 | for a clip of non-negative duration, shrinking never gives a longer clip than the original (or 0.1 s) |
| Timeline.DisplaySegments | App.tsx:581-583 | with the filter on, exactly the non-redundant segments are shown, each as often as in the catalogue; with it off, the catalogue itself |
| Timeline.DisplaySplit | App.tsx:581-583 | the sidebar shows the segments in catalogue order: the parts around a segment are shown as on their own, and the segment is shown unless it is hidden as redundant |
| Timeline.DisplayedTotalSplit | App.tsx:581-587 | the displayed total plus the redundant segments' total is the total of all segments |
| Timeline.FilterSplit | App.tsx:582 | filtering by a predicate and by its complement splits the total duration |
| Playback.FindFirst | App.tsx:350 | the free-mode search returns the first segment whose ±0.03 s window holds the time, or none when no segment's window does |
| Playback.Tick | App.tsx:313-357 | the caption is computed from the pre-tick mode and index; outside project preview the tick changes no state and issues no player command |
| Playback.AdvanceAtClipEnd | App.tsx:323-328 | within 0.02 s of a non-last clip's end, preview moves to the next clip, seeks to its start and plays |
| Playback.StopAtLastClip | App.tsx:329-333 | at the last clip's end, preview stops with index -1 and the player pauses |
| Playback.InvalidIndexStopsPreview | App.tsx:335-338 | previewing with an index that names no clip stops preview with index -1 and shows no caption |
| Playback.TickBeforeEndIsIdle | App.tsx:319-334 | before the active clip's end a tick changes nothing and issues no command |
| Playback.PreviewIndexStaysValid | App.tsx:319-339 | after a tick in preview, either the index is a valid clip or preview is off with index -1 |
| Playback.TwoClipScenario | App.tsx:313-357 | with two clips, the first clip's end seeks to 5.0 while still captioning "A", and the second's end stops preview |
| Playback.TogglePreview | App.tsx:631-642 | starting preview sets index 0, seeks to the first clip's start and plays; stopping only clears the flag; an empty timeline does nothing |
| Playback.StartThenTick | App.tsx:631-642 | right after preview starts, a tick inside the first clip keeps the state and captions the first clip |
| Playback.ModalLoop | App.tsx:376-380 | the loop either keeps the position or resets it to the window start, and resets only past the end or before the start minus 0.1 s |
| Playback.ModalLoopStaysInWindow | App.tsx:376-380 | for a non-empty window the position after the check is in [start - 0.1, end), and a second check changes nothing |
| Caption.ContinueTiles | App.tsx:281-290 | the greedy continuation yields at least one line, and the lines concatenate back to the text |
| Caption.ContinueWellWrapped | App.tsx:284-289 | every produced line fits the maximum width or is one character, and each break was forced by the next character |
| Caption.WrapProperties | App.tsx:280-290 | `wrapText` splits any text into at least one line whose concatenation is the text; empty text gives one empty line; non-empty text wraps greedily within the width |
| Caption.WrapFixedWidth | App.tsx:281-290 | when every string measures its length, wrapping at width m cuts the text into chunks of m characters |
| Caption.ThreePerLine | App.tsx:281-290 | when every string measures its length, "ABCDEFGH" at width 3 wraps to "ABC", "DEF", "GH" |
| Caption.MaxWidth | App.tsx:294 | the value is the width of some line and no line is wider |
| Caption.BackgroundBoxGeometry | App.tsx:292-305 | the background box is centred on x, its bottom is 20 px below the anchor, its top is a line height minus 10 px above the top baseline, and it covers every line with 15 px to spare on each side |
| Caption.DrawSequenceOrder | App.tsx:307-310 | lines are drawn from the last to the first, each stroked and then filled at its own baseline |
| Caption.BaselinesStackUpward | App.tsx:308-309 | the last line sits on the anchor and each line sits one line height above the next |
| Caption.WrapText | App.tsx:280-311 | the drawn layout's lines are the greedy wrap, covering the text; the box exists exactly when requested; the draw calls are the bottom-up sequence |
| Caption.SplitLines | App.tsx:281-290 | the loop over characters produces exactly the greedy wrap |
| Caption.DrawLines | App.tsx:307-310 | the downward loop issues exactly the stroke-and-fill sequence |
| JsString.TrimStart | services/volcanoService.ts:122 | the result is a suffix of the input and starts with a non-whitespace character unless it is empty |
| JsString.TrimEnd | services/volcanoService.ts:122 | the result is a prefix of the input and ends with a non-whitespace character unless it is empty |
| JsString.TrimIsCore | services/volcanoService.ts:122 | the input is whitespace + trimmed text + whitespace |
| JsString.TrimEndsClean | services/volcanoService.ts:122 | trimmed text neither starts nor ends with whitespace |
| JsString.TrimIdempotent | services/volcanoService.ts:124-126 | trimming twice is trimming once |
| JsString.TrimOfTrimmed | services/volcanoService.ts:124-126 | text without outer whitespace is its own trim |
| JsString.SliceDropsBothEnds | services/volcanoService.ts:124-126 | `slice(a, -b)` drops a characters at the front and b at the back |
| JsString.ToLowerAsciiProperties | App.tsx:399 | the lowered text has no ASCII capital; each capital becomes its small letter and every other character stays; lowering twice is lowering once; a text is its own lowering exactly when it has no capital |
| JsString.HexRun | App.tsx:575-577 | the run of leading hex digits is maximal |
| JsString.ReadHex | App.tsx:575-577 | `parseInt(_, 16)` is NaN exactly when the text is empty or does not start with a hex digit |
| JsString.NatToString | services/volcanoService.ts:112 | a number is rendered as decimal digits without a leading zero |
| JsString.NatToStringRoundTrip | services/volcanoService.ts:112 | reading the rendered digits gives back the number |
| Style.Reset | App.tsx:791 | the reset restores the defaults of every parameter except the background colour and font family, which it keeps |
| Style.ResetIdempotent | App.tsx:791 | pressing reset twice is pressing it once |
| Style.ResetRestoresDefaultIff | App.tsx:791 | reset gives exactly the mount-time style if and only if the background colour and font family are already the defaults |
| Style.HexToRgbaRoundTrip | App.tsx:574-579 | converting a `#rrggbb` colour built from three bytes gives back those bytes |
| Style.ShortHexBlueIsNaN | App.tsx:577 | a colour string of at most five characters has no blue component (NaN) |
| Volcano.Latin1Injective | services/volcanoService.ts:18 | distinct byte strings give distinct binary strings, so the conversion loses nothing before `btoa` |
| Volcano.Latin1Append | services/volcanoService.ts:15-19 | converting a concatenation is concatenating the conversions, so chunk-wise conversion equals whole conversion |
| Volcano.FileToBinary | services/volcanoService.ts:13-19 | the chunks tile the bytes in order, each chunk is at most 8192 bytes, there are ⌈len/8192⌉ of them, and the string has one character per byte with its code |
| Volcano.FileToBase64 | services/volcanoService.ts:7-30 | the result is `btoa` of the binary string, or the file-too-large error when `btoa` throws |
| Volcano.StripJsonFence | services/volcanoService.ts:122-124 | a reply fenced as "```json … ```" becomes its trimmed body |
| Volcano.StripPlainFence | services/volcanoService.ts:122-127 | a reply fenced as "``` … ```" (not json) becomes its trimmed body |
| Volcano.StripUnfenced | services/volcanoService.ts:122-127 | a reply whose trimmed text does not start with "```" is only trimmed, and cleaning it twice changes nothing |
| Volcano.Rethrown | services/volcanoService.ts:136-139 | the rethrown message is never empty and keeps any non-empty original message |
| Volcano.RequestFailedMentionsStatus | services/volcanoService.ts:110-113 | a failed HTTP reply's message contains its status code |
| Volcano.EmptyContentRejected | services/volcanoService.ts:116-119 | an ok response with missing or empty content fails with "API 返回内容为空", which the `catch` passes on unchanged |
| Volcano.EmptyReplyFailsAnalysis | services/volcanoService.ts:116-139 | with a key and an encodable file, an ok response with missing or empty content makes the analysis fail with exactly the empty-content message |
| Volcano.ReplyItemsSucceedsIff | services/volcanoService.ts:110-132 | the request yields a list exactly when the response is ok, the content is non-empty and the cleaned content parses to an array, and the list is that array |
| Volcano.NotArrayRejected | services/volcanoService.ts:129-132 | a parsed value that is not an array is rejected with the not-an-array error |
| Volcano.UnauthorizedMentions401 | services/volcanoService.ts:110-139 | a 401 reply ends in an error whose message contains "401" |
| Volcano.SortByStartTime | services/volcanoService.ts:135 | the in-place sort leaves the array ordered by start time and a permutation of what it held |
| Volcano.InsertLeft | services/volcanoService.ts:135 | one insertion step extends the sorted prefix by one and permutes the array |
| Volcano.SortedCopy | services/volcanoService.ts:135 | the returned list is sorted by start time and a permutation of the parsed list |
| Volcano.AnalyzeVideo | services/volcanoService.ts:36-140 | a missing key fails before any progress message or file read; a failed encoding stops after reading; otherwise the request is sent, and the result is the rethrown error or the parsed list sorted and permuted |
| Export.QualityHeights | App.tsx:452-455 | 480p, 720p, 1080p and 1440p map to 480, 720, 1080 and 1440; distinct qualities get distinct heights; 1440p is the highest and 480p the lowest |
| Export.BitrateMonotone | App.tsx:478 | a higher output height never asks for a lower bitrate |
| Export.CanvasFor | App.tsx:457-459 | the canvas has the target height, and its width is the source aspect ratio times that height, rounded down |
| Export.MimeFallsBackToWebM | App.tsx:475-477 | the recorder type is the preferred one or plain WebM; WebM output is always WebM; unsupported MP4 records WebM |
| Export.DownloadName | App.tsx:1005 | the name is "NovaClip_", then the quality label, then a dot and the chosen format's extension |
| Export.DownloadNameInjective | App.tsx:1005 | different quality or format choices never give the same file name |
| Export.DownloadNameIgnoresFallback | App.tsx:1005 | when MP4 is unsupported, the recording is plain WebM but the download is still named ".mp4" |
| Export.PenSizes | App.tsx:530-532 | the font is at least 16 px and at least a twentieth of the canvas height, both times the scale; the outline is at least 2 px and an eighth of the font; 1080 lines at scale 1 give 54 px |
| Export.FontSizeBounds | App.tsx:530 | the font size is bounded below by both arms of its `max` |
| Export.FrameProgress | App.tsx:523-524 | a frame's progress is at most 99, and it is a number whenever the total is positive |
| Export.FrameProgressMonotone | App.tsx:523-524 | more elapsed time never shows less progress |
| Export.ReplayAppend | App.tsx:493-517 | replaying two call lists in turn is replaying their concatenation |
| Export.ClipCallsKeepPaused | App.tsx:507-517 | the resume/pause pairs of the clip loop take a paused recorder back to paused |
| Export.ExportCallsLegal | App.tsx:493-561 | start, pause, a resume/pause pair per clip and stop are legal from an inactive recorder and end inactive |
| Export.Recorder.constructor | App.tsx:481 | a new recorder is inactive with no calls |
| Export.Recorder.Start | App.tsx:493 | start records and logs the call |
| Export.Recorder.Pause | App.tsx:517 | pause pauses and logs the call |
| Export.Recorder.Resume | App.tsx:507 | resume records and logs the call |
| Export.Recorder.Stop | App.tsx:559-561 | stop ends the recording and logs the call |
| Export.RenderClip | App.tsx:512-554 | the frame loop draws exactly the specified frames of the clip |
| Export.RenderClips | App.tsx:499-555 | the clip loop seeks to each clip's start in order, issues a resume/pause pair per clip, leaves the recorder paused, and draws all specified frames with `processedDuration` accumulating |
| Export.RecordClip | App.tsx:507-519 | one clip resumes the recorder, draws its frames and pauses it again |
| Export.Render | App.tsx:451-562 | the export renders exactly the specified run: canvas, type, bitrate, seeks, the legal recorder calls, frames, and progress ending in 100 |
| Export.ClipFramesFacts | App.tsx:512-549 | every frame of a clip is drawn while recording, carries the clip's caption, lies before the clip's end, and shows the progress of its elapsed time |
| Export.ClipFramesFollowTimes | App.tsx:514-523 | a clip's frames are the observed positions up to the first one at or past its end |
| Export.AllFramesRecordedAndCapped | App.tsx:499-555 | every frame of the export is recorded, belongs to a clip of the timeline, carries that clip's caption, and shows progress of at most 99 |
| Export.ClipElapsedOrdered | App.tsx:518-523 | with positions rising from the clip's start, elapsed time rises and stays within the clip's share |
| Export.AllElapsedOrdered | App.tsx:496-555 | across all clips the elapsed export time never decreases |
| Export.ExportProgressNondecreasing | App.tsx:518-524 | with a positive total and every clip ending no earlier than it starts, every progress value in the loop is a number of at most 99 and never decreases |
| Export.ReversedClipLowersProgress | App.tsx:518-524 | a clip that ends before it starts makes the progress fall: clips [0, 10], [20, 15], [30, 40] read 0, 60, then 33.3 |
| Status.StatusRoundTrips | App.tsx:395-402 | analysis ends in the editor or back at upload, export ends at the result dialog or in the editor, and only the export start leads to generating |
| Status.ClassifyFailure | App.tsx:398-401 | the key is rejected exactly for a message mentioning "401" or "auth" in any case, which then shows the localized text; otherwise the message or a generic text is shown, never empty |
| Status.AuthInAnyCase | App.tsx:399 | "auth" in any letter case anywhere in the message counts as an authentication failure |
| Status.UnauthorizedReplyRejectsKey | App.tsx:399-400 | a 401 reply from the transcription service rejects the key |
| Status.ServiceFailureShowsItsMessage | App.tsx:398-401 | a non-authentication failure of the service shows exactly its message |
| App.Editor.constructor | App.tsx:182-224 | the component mounts with the initial history and every state variable at its initial value |
| App.Editor.UpdateSegmentsWithHistory | App.tsx:231-243 | the slice/push/shift commit is `History.Commit`, keeps the history invariant and shows the new timeline; nothing else changes |
| App.Editor.Undo | App.tsx:245-251 | the undo button is `History.Undo` and shows the snapshot under the cursor |
| App.Editor.Redo | App.tsx:253-259 | the redo button is `History.Redo` and shows the snapshot under the cursor |
| App.Editor.ToggleSegment | App.tsx:934-944 | a catalogue click seeks the player to the segment's start, plays, and commits the toggled timeline |
| App.Editor.RemoveClip | App.tsx:904 | the trash button commits the timeline without that clip |
| App.Editor.ResetTimeline | App.tsx:893 | the reset button commits the empty timeline |
| App.Editor.OpenEditModal | App.tsx:406-417 | opening a clip copies its text and times into the dialog, marks it active and seeks to its start |
| App.Editor.HandleTextChange | App.tsx:427-435 | typing always sets the text, and sets the end time by the shrink rule |
| App.Editor.SaveClipEdit | App.tsx:419-425 | save commits the edited timeline (the corrected `SaveEdit`) and closes the dialog; without a dialog nothing changes |
| App.Editor.CloseEditModal | App.tsx:991 | closing the dialog clears the edited index only |
| App.Editor.SyncSubtitles | App.tsx:313-357 | a frame tick applies `Playback.Tick` to the preview state and caption and returns its player commands |
| App.Editor.TogglePreview | App.tsx:631-642 | the preview button applies `Playback.TogglePreview` |
| App.Editor.ResetStyle | App.tsx:791 | the style reset applies `Style.Reset` and touches nothing else |
| App.Editor.ChooseFile | App.tsx:385-395 | no file changes nothing; a file over 800 MiB sets the warning, and any file is kept and starts the analysis |
| App.Editor.AnalysisSettled | App.tsx:396-403 | success replaces the catalogue and opens the editor; failure shows the classified error, rejects the key on an authentication failure and returns to upload; the timeline and history are untouched |
| App.Editor.ComposeVideo | App.tsx:437-571 | an empty timeline changes nothing; a load failure ends in the editor with "Video load failed"; a loaded video renders the specified run and ends at the result dialog at 100% |
| App.Editor.RenderExport | App.tsx:451-567 | the loaded export renders the specified run with the panel's settings and finishes at 100% with a result |
| App.Editor.BackToEditor | App.tsx:1000-1004 | leaving the result dialog returns to the editor |
| App.Editor.DismissError | App.tsx:1018 | closing the banner clears the error only |
| App.UndoInDialogThenSave | App.tsx:419-425 | one commit, undo inside the open dialog, then save: the timeline is empty, the write as written yields a bare entry, and `SaveEdit` keeps it empty |

## Left out

- The React rendering, the translation tables, the sidebar and panel toggles, and the CSS caption overlay are user interface only. The localized authentication text is a parameter.
- Plain setters are not modelled: quality, format, burn-in, language, filter, the dialog's start and end fields, and each style picker. Each only assigns one field.
- The progress message (`processingMsg`) and its rounded percentage are display text only.
- The browser's media objects are reduced to values and commands, not behaviour:
  - the players, `AudioContext`, `captureStream`, `drawImage`, `play`/`pause`/`onseeked`, `requestAnimationFrame` and object URLs;
  - the recorder is a state machine with a call log;
  - the players' positions are input sequences.
- Promises, the 500 ms grace before `stop` and the asynchronous scheduling are written as sequential loops. An exception inside the metadata handler never reaches the outer `catch`, so the model has no failure path for it. The "Synthesis error" fallback is unreachable because the only rejection carries a message.
- `fetch`, `btoa`, `JSON.parse` and `process.env` are foreign calls and appear as parameters. The file's bytes are an input. The prompt text and request body are left out.
- Volcano.AnalyzeVideo: has no file-read failure. `reader.onerror` (`services/volcanoService.ts:28`) rejects with the browser's error event, and that rejection is awaited outside the `try` (`services/volcanoService.ts:47`), so it would escape without the rethrow; the model always reads the bytes.
- Volcano.AnalyzeVideo: assumes every array element is a well-formed segment. An element without a numeric `startTime` makes the sort comparator return NaN (`services/volcanoService.ts:135`), and the resulting order is implementation-defined; the model's `ArrayValue` carries segments only.
- The `aistudio` key dialog (`App.tsx:267-278`) is a foreign call.
- The canvas `rgba(...)` string and the number formatting in messages are left out. Colours are modelled as parsed components.
- IEEE floating point is left out: times and sizes are exact reals.
- Export.CanvasFor: states the canvas size in exact arithmetic. The source has no `Math.floor`: assigning `canvas.width` and `canvas.height` (`App.tsx:458-459`) truncates the floating-point products to integers. In floating point `scale` is rounded, so the height can come out one pixel short (854 × (480 / 854) gives 479.99…, stored as 479), and the width can be one pixel below the exact quotient; the model's height is always the target height and its width the exact floor.
- The `v.paused` exit of the render loop is left out. The end of a clip's position sequence stands in for a player that stops delivering frames.
- Stale React closures (a handler seeing state from an earlier render) are left out. Each method sees the current fields.
- `vite.config.ts` is build configuration with no logic and is not part of this model.
- App.Editor.ComposeVideo: requires a positive source height. With height 0 the scale is Infinity and the products are Infinity or NaN, which the canvas attributes turn into 0: the source records a 0×0 canvas of blank frames. The model does not represent that canvas.
- Export.FrameProgress: with a zero total, the JavaScript `NaN`/`Infinity` progress is reduced to `None`, or to 99 for a positive elapsed time. It is not a float value.
- JsString.ToLowerAscii: lower-cases ASCII letters only, where JavaScript's `toLowerCase` also maps other scripts.
- Export.ExportProgressNondecreasing: requires every clip to end no earlier than it starts. The clip dialog's start and end fields (`App.tsx:987-988`) accept any numbers and `saveClipEdit` stores them (`App.tsx:422`), so such a clip can reach the export; `Export.ReversedClipLowersProgress` shows the progress then falls.
- Caption.Wrap: steps through Dafny characters, while JavaScript's `text[i]` steps through UTF-16 code units, so a character outside the Basic Multilingual Plane is one step in the model and two in the source (which can split it across lines). The same holds for the text lengths in Timeline.ShrunkEndTime.
- Volcano.AnalyzeVideo: states that the result is sorted and a permutation, but not that equal start times keep their order, although `Array.prototype.sort` is stable.

## Findings

| source | as written | input that shows it | evidently intended | confidence | as-written member | corrected member |
|---|---|---|---|---|---|---|
| App.tsx:419-425 | The edit dialog keeps its undo/redo buttons (`App.tsx:982-983`). `saveClipEdit` writes `newList[editingIndex] = {...newList[editingIndex], …}` without checking that the index still names a clip. Timeline.SaveEditAsWrittenDiffers and App.UndoInDialogThenSave show the difference; App.Editor.SaveClipEdit uses the corrected definition. | Commit one clip to a fresh history, open its dialog, press the dialog's undo, then save. The timeline is now empty, and the save commits a one-entry list whose entry has no `id`, `isRedundant` or `confidence`. A larger index leaves holes. | A save whose index no longer names a clip leaves the timeline as it is. The correction covers only that case: when undo or redo puts a different clip at the same index, `SaveEdit` still overwrites it with the dialog's text and times. | not executed | Timeline.SaveEditAsWritten | Timeline.SaveEdit |
