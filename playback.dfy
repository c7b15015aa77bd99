// One tick of the playback synchroniser (App.tsx syncSubtitles), the
// project-preview start/stop button and the loop of the clip-edit
// dialog's player (handleModalUpdate).

module Playback {
  import opened Types

  /** Tolerance before a clip's end at which project preview moves on. */
  const EndTolerance: real := 0.02
  /** Window widening when showing the active clip's caption in preview. */
  const ProjectCaptionTolerance: real := 0.05
  /** Window widening when looking up a caption in free playback. */
  const FreeCaptionTolerance: real := 0.03
  /** How far before the dialog window the edit player may drift. */
  const ModalLeadTolerance: real := 0.1

  /** The synchroniser's component state: the preview flag and the active
      clip index (-1 when no clip is active). */
  datatype PlayState = PlayState(previewing: bool, activeClip: int)

  /** What one tick decides: the next state, the player commands it issues
      (a seek target, play, pause) and the caption text to show. */
  datatype TickResult = TickResult(
    next: PlayState,
    seek: Option<real>,
    play: bool,
    pause: bool,
    caption: string)

  predicate InFreeWindow(s: Segment, time: real) {
    s.startTime - FreeCaptionTolerance <= time <= s.endTime + FreeCaptionTolerance
  }

  /** Index of the first segment whose widened window holds `time` (`Array.find`). */
  function FindFirst(segs: seq<Segment>, time: real): (r: Option<nat>)
    ensures r.Some? ==> r.value < |segs| && InFreeWindow(segs[r.value], time) &&
                        forall j :: 0 <= j < r.value ==> !InFreeWindow(segs[j], time)
    ensures r.None? ==> forall j :: 0 <= j < |segs| ==> !InFreeWindow(segs[j], time)
  {
    if segs == [] then None
    else if InFreeWindow(segs[0], time) then Some(0)
    else match FindFirst(segs[1..], time)
         case None => None
         case Some(k) => Some(k + 1)
  }

  /** Free playback caption: the text of the first catalogue segment whose
      window, widened by 0.03 s on both sides, holds the time; else "". */
  function FreeCaption(segs: seq<Segment>, time: real): string
  {
    match FindFirst(segs, time)
    case Some(k) => segs[k].text
    case None => ""
  }

  /** Preview caption: the active clip's text while the time is within its
      bounds widened by 0.05 s; "" otherwise or with no valid clip. */
  function ProjectCaption(selected: Timeline, active: int, time: real): string
  {
    if 0 <= active < |selected| then
      var clip := selected[active];
      if time < clip.startTime - ProjectCaptionTolerance || time > clip.endTime + ProjectCaptionTolerance then ""
      else clip.text
    else ""
  }

  /** One synchroniser tick at playback position `time`. The clip step only
      happens in preview with a non-empty timeline; the caption is chosen
      from the state as it was before this tick. */
  function Tick(st: PlayState, selected: Timeline, segments: seq<Segment>, time: real): (r: TickResult)
    ensures r.caption == (if st.previewing then ProjectCaption(selected, st.activeClip, time)
                          else FreeCaption(segments, time))
    ensures !st.previewing ==> r.next == st && r.seek.None? && !r.play && !r.pause
  {
    var caption := if st.previewing then ProjectCaption(selected, st.activeClip, time)
                   else FreeCaption(segments, time);
    if st.previewing && |selected| > 0 then
      if 0 <= st.activeClip < |selected| then
        if time >= selected[st.activeClip].endTime - EndTolerance then
          if st.activeClip < |selected| - 1 then
            var nextIdx := st.activeClip + 1;
            TickResult(PlayState(true, nextIdx), Some(selected[nextIdx].startTime), true, false, caption)
          else
            TickResult(PlayState(false, -1), None, false, true, caption)
        else TickResult(st, None, false, false, caption)
      else TickResult(PlayState(false, -1), None, false, false, caption)
    else TickResult(st, None, false, false, caption)
  }

  /** At the end of a clip that is not the last, preview moves to the next
      clip and seeks to its start. */
  lemma AdvanceAtClipEnd(st: PlayState, selected: Timeline, segments: seq<Segment>, time: real)
    requires st.previewing && 0 <= st.activeClip < |selected| - 1
    requires time >= selected[st.activeClip].endTime - EndTolerance
    ensures var r := Tick(st, selected, segments, time);
      r.next == PlayState(true, st.activeClip + 1) &&
      r.seek == Some(selected[st.activeClip + 1].startTime) && r.play && !r.pause
  {
  }

  /** At the end of the last clip preview stops, the index returns to -1
      and the player is paused. */
  lemma StopAtLastClip(st: PlayState, selected: Timeline, segments: seq<Segment>, time: real)
    requires st.previewing && |selected| > 0 && st.activeClip == |selected| - 1
    requires time >= selected[st.activeClip].endTime - EndTolerance
    ensures var r := Tick(st, selected, segments, time);
      r.next == PlayState(false, -1) && r.seek.None? && r.pause
  {
  }

  /** In preview with an index naming no clip, preview is switched off
      without pausing the player. */
  lemma InvalidIndexStopsPreview(st: PlayState, selected: Timeline, segments: seq<Segment>, time: real)
    requires st.previewing && |selected| > 0 && !(0 <= st.activeClip < |selected|)
    ensures var r := Tick(st, selected, segments, time);
      r.next == PlayState(false, -1) && r.seek.None? && !r.pause && r.caption == ""
  {
  }

  /** Before the active clip's end the tick changes nothing, so redundant
      ticks are harmless. */
  lemma TickBeforeEndIsIdle(st: PlayState, selected: Timeline, segments: seq<Segment>, time: real)
    requires st.previewing && 0 <= st.activeClip < |selected|
    requires time < selected[st.activeClip].endTime - EndTolerance
    ensures var r := Tick(st, selected, segments, time);
      r.next == st && r.seek.None? && !r.play && !r.pause
  {
  }

  /** After a preview tick on a non-empty timeline the state is either
      previewing a valid clip or stopped at index -1. */
  lemma PreviewIndexStaysValid(st: PlayState, selected: Timeline, segments: seq<Segment>, time: real)
    requires st.previewing && |selected| > 0
    ensures var n := Tick(st, selected, segments, time).next;
      (n.previewing && 0 <= n.activeClip < |selected|) || n == PlayState(false, -1)
  {
  }

  /** Two clips (0, 2, "A") and (5, 6.5, "B"): reaching 2.0 on the first seeks
      to 5.0; reaching 6.5 on the second ends preview at index -1. */
  lemma TwoClipScenario(a: Segment, b: Segment, segments: seq<Segment>)
    requires a.startTime == 0.0 && a.endTime == 2.0 && a.text == "A"
    requires b.startTime == 5.0 && b.endTime == 6.5 && b.text == "B"
    ensures var first := Tick(PlayState(true, 0), [a, b], segments, 2.0);
      first.next == PlayState(true, 1) && first.seek == Some(5.0) && first.caption == "A"
    ensures var second := Tick(PlayState(true, 1), [a, b], segments, 6.5);
      second.next == PlayState(false, -1) && second.pause && second.caption == "B"
  {
  }

  /** The "preview all" button result: the new state and the seek target. */
  datatype ToggleResult = ToggleResult(next: PlayState, seek: Option<real>, play: bool)

  /** The preview button: disabled (no effect) on an empty timeline; when
      not previewing it activates clip 0 and seeks to its start; when
      previewing it only clears the flag. */
  function TogglePreview(st: PlayState, selected: Timeline): (r: ToggleResult)
    ensures |selected| == 0 ==> r == ToggleResult(st, None, false)
    ensures |selected| > 0 && !st.previewing ==>
      r.next == PlayState(true, 0) && r.seek == Some(selected[0].startTime) && r.play
    ensures |selected| > 0 && st.previewing ==>
      r.next == PlayState(false, st.activeClip) && r.seek.None?
  {
    if |selected| == 0 then ToggleResult(st, None, false)
    else if !st.previewing then ToggleResult(PlayState(true, 0), Some(selected[0].startTime), true)
    else ToggleResult(PlayState(false, st.activeClip), None, false)
  }

  /** Starting preview and ticking before the first clip's end keeps clip 0
      active and shows its caption once inside its window. */
  lemma StartThenTick(st: PlayState, selected: Timeline, segments: seq<Segment>, time: real)
    requires |selected| > 0 && !st.previewing
    requires selected[0].startTime <= time < selected[0].endTime - EndTolerance
    ensures var started := TogglePreview(st, selected).next;
      var r := Tick(started, selected, segments, time);
      r.next == started && r.caption == selected[0].text
  {
  }

  /** The clip-edit player's time update: a position at or past the window
      end, or more than 0.1 s before its start, jumps back to the start. */
  function ModalLoop(time: real, start: real, end: real): (r: real)
    ensures r == time || r == start
    ensures r != time ==> time >= end || time < start - ModalLeadTolerance
  {
    if time >= end || time < start - ModalLeadTolerance then start else time
  }

  /** For a non-empty window the position after an update lies inside it,
      and a second update changes nothing. */
  lemma ModalLoopStaysInWindow(time: real, start: real, end: real)
    requires start < end
    ensures start - ModalLeadTolerance <= ModalLoop(time, start, end) < end
    ensures ModalLoop(ModalLoop(time, start, end), start, end) == ModalLoop(time, start, end)
  {
  }
}
