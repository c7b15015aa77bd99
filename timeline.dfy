// The list builders behind the timeline actions of App.tsx: toggle a
// segment by id, delete a clip, save a clip edit, the auto-shrink of a
// clip when its caption gets shorter, and the redundancy filter of the
// segment catalogue.

module Timeline {
  import opened Types

  /** Keep the segments satisfying `keep`, in order (Array.prototype.filter). */
  function Filter(t: seq<Segment>, keep: Segment -> bool): (r: seq<Segment>)
    ensures |r| <= |t|
    ensures forall x :: x in r <==> x in t && keep(x)
  {
    if t == [] then []
    else
      var last := t[|t| - 1];
      Filter(t[..|t| - 1], keep) + (if keep(last) then [last] else [])
  }

  /** Each element occurs in the result as often as in the input when it
      satisfies `keep`, and not at all otherwise. */
  lemma {:induction false} FilterCounts(t: seq<Segment>, keep: Segment -> bool)
    ensures forall x :: multiset(Filter(t, keep))[x] == if keep(x) then multiset(t)[x] else 0
  {
    if t != [] {
      var init, last := t[..|t| - 1], t[|t| - 1];
      FilterCounts(init, keep);
      assert t == init + [last];
      assert multiset(t) == multiset(init) + multiset{last};
    }
  }

  /** One element is kept exactly when it satisfies `keep`. With
      `FilterAppend` this fixes the order: the kept elements appear as they
      do in the input. */
  lemma FilterSingleton(x: Segment, keep: Segment -> bool)
    ensures Filter([x], keep) == if keep(x) then [x] else []
  {
    assert [x][..0] == [];
  }

  lemma {:induction false} FilterAppend(a: seq<Segment>, b: seq<Segment>, keep: Segment -> bool)
    ensures Filter(a + b, keep) == Filter(a, keep) + Filter(b, keep)
    decreases |b|
  {
    if b == [] {
      assert a + b == a;
    } else {
      var b' := b[..|b| - 1];
      assert (a + b)[..|a + b| - 1] == a + b';
      FilterAppend(a, b', keep);
    }
  }

  /** Filtering with a predicate every element satisfies changes nothing. */
  lemma {:induction false} FilterKeepsAll(t: seq<Segment>, keep: Segment -> bool)
    requires forall k :: 0 <= k < |t| ==> keep(t[k])
    ensures Filter(t, keep) == t
  {
    if t != [] {
      FilterKeepsAll(t[..|t| - 1], keep);
      assert t[..|t| - 1] + [t[|t| - 1]] == t;
    }
  }

  /** Whether some clip of the timeline carries this id (`Array.some`). */
  predicate HasId(t: Timeline, id: string) {
    exists k :: 0 <= k < |t| && t[k].id == id
  }

  /** All clips whose id differs from `id`, in their original order. */
  function WithoutId(t: Timeline, id: string): (r: Timeline)
    ensures !HasId(r, id)
    ensures forall x :: x in r <==> x in t && x.id != id
    ensures forall x :: multiset(r)[x] == if x.id != id then multiset(t)[x] else 0
  {
    var r := Filter(t, (s: Segment) => s.id != id);
    FilterCounts(t, (s: Segment) => s.id != id);
    assert forall k :: 0 <= k < |r| ==> r[k] in r;
    r
  }

  /** Removal by id works piece by piece: the clips before and after a
      clip are filtered on their own, and the clip itself stays exactly
      when its id differs, so the remaining clips keep their order. */
  lemma WithoutIdSplit(a: Timeline, x: Segment, b: Timeline, id: string)
    ensures WithoutId(a + [x] + b, id) == WithoutId(a, id) + (if x.id != id then [x] else []) + WithoutId(b, id)
  {
    var keep := (s: Segment) => s.id != id;
    FilterAppend(a + [x], b, keep);
    FilterAppend(a, [x], keep);
    FilterSingleton(x, keep);
  }

  /** Clicking a catalogue segment: an id already on the timeline is
      removed (every clip with that id), any other segment is appended. */
  function ToggleSelect(t: Timeline, seg: Segment): (r: Timeline)
    ensures HasId(r, seg.id) <==> !HasId(t, seg.id)
    ensures HasId(t, seg.id) ==> r == WithoutId(t, seg.id)
    ensures !HasId(t, seg.id) ==> r == t + [seg]
  {
    if HasId(t, seg.id) then WithoutId(t, seg.id)
    else
      assert (t + [seg])[|t|].id == seg.id;
      t + [seg]
  }

  /** Toggling a segment whose id is absent twice gives back the timeline. */
  lemma ToggleTwiceRestores(t: Timeline, seg: Segment)
    requires !HasId(t, seg.id)
    ensures ToggleSelect(ToggleSelect(t, seg), seg) == t
  {
    var keep := (s: Segment) => s.id != seg.id;
    FilterAppend(t, [seg], keep);
    FilterKeepsAll(t, keep);
    assert Filter([seg], keep) == [] by {
      assert [seg][..0] == [];
    }
  }

  /** The trash button: keep every clip whose position is not `i`. */
  function RemoveAt(t: Timeline, i: int): (r: Timeline)
    ensures 0 <= i < |t| ==> |r| == |t| - 1
    ensures 0 <= i < |t| ==> forall k :: 0 <= k < |r| ==> r[k] == (if k < i then t[k] else t[k + 1])
    ensures 0 <= i < |t| ==> multiset(r) + multiset{t[i]} == multiset(t)
    ensures !(0 <= i < |t|) ==> r == t
  {
    if 0 <= i < |t| then
      assert t == t[..i] + [t[i]] + t[i + 1..];
      t[..i] + t[i + 1..]
    else t
  }

  /** Saving the clip dialog: the entry at `i` gets the dialog's text and
      times, keeping its id and flags; every other entry is untouched. An
      index that no longer names a clip (the dialog's undo button can
      shorten the timeline) leaves the timeline as it is; the array write
      the dialog actually performs is `SaveEditAsWritten`. */
  function SaveEdit(t: Timeline, i: nat, text: string, start: real, end: real): (r: Timeline)
    ensures |r| == |t|
    ensures forall k :: 0 <= k < |t| && k != i ==> r[k] == t[k]
    ensures i < |t| ==> r[i] == t[i].(text := text, startTime := start, endTime := end)
    ensures i >= |t| ==> r == t
  {
    if i < |t| then t[i := t[i].(text := text, startTime := start, endTime := end)] else t
  }

  /** A slot of the JavaScript array the dialog's save writes: a clip, an
      object holding only the dialog's text and times (no id, no flags,
      no confidence), or a hole. */
  datatype Slot = Clip(segment: Segment) | Bare(text: string, startTime: real, endTime: real) | Hole

  function Slots(t: Timeline): (r: seq<Slot>)
    ensures |r| == |t| && forall k :: 0 <= k < |t| ==> r[k] == Clip(t[k])
  {
    seq(|t|, k requires 0 <= k < |t| => Clip(t[k]))
  }

  function Holes(n: nat): (r: seq<Slot>)
    ensures |r| == n && forall k :: 0 <= k < n ==> r[k] == Hole
  {
    seq(n, k => Hole)
  }

  /** The save as the dialog writes it, `newList[i] = {...newList[i], ...}`:
      past the end of the list the spread copies nothing, so slot `i` gets
      an object without id or flags and any gap before it becomes holes. */
  function SaveEditAsWritten(t: Timeline, i: nat, text: string, start: real, end: real): seq<Slot>
  {
    if i < |t| then Slots(SaveEdit(t, i, text, start, end))
    else Slots(t) + Holes(i - |t|) + [Bare(text, start, end)]
  }

  /** The save as written agrees with `SaveEdit` exactly when the index
      names a clip; otherwise the list grows and its last entry is no clip. */
  lemma SaveEditAsWrittenDiffers(t: Timeline, i: nat, text: string, start: real, end: real)
    ensures SaveEditAsWritten(t, i, text, start, end) == Slots(SaveEdit(t, i, text, start, end)) <==> i < |t|
    ensures i >= |t| ==> var r := SaveEditAsWritten(t, i, text, start, end);
      |r| == i + 1 > |t| && r[i] == Bare(text, start, end)
  {
    if i >= |t| {
      assert |SaveEditAsWritten(t, i, text, start, end)| == i + 1;
    }
  }

  /** The smallest clip length the auto-shrink produces, in seconds. */
  const MinClipDuration: real := 0.1

  function Max(a: real, b: real): real { if a >= b then a else b }

  /** The dialog's end time after its caption becomes `newText`: a strictly
      shorter, formerly non-empty caption rescales the saved clip's
      duration by the length ratio (at least 0.1 s) from the dialog's start
      time; otherwise the end time stays. An index that names no clip reads
      as an empty caption of zero duration. */
  function ShrunkEndTime(t: Timeline, editing: int, tempStart: real, tempEnd: real, newText: string): real
  {
    var orig := if 0 <= editing < |t| then t[editing].text else "";
    var dur := if 0 <= editing < |t| then t[editing].Duration() else 0.0;
    if |newText| < |orig| && |orig| > 0 then
      tempStart + Max(MinClipDuration, dur * (|newText| as real / |orig| as real))
    else tempEnd
  }

  /** Shortening rescales from the unchanged start time and never goes
      below the floor; a caption that is not shorter leaves the end alone. */
  lemma ShrinkOnlyWhenShorter(t: Timeline, i: nat, tempStart: real, tempEnd: real, newText: string)
    requires i < |t|
    ensures var r := ShrunkEndTime(t, i, tempStart, tempEnd, newText);
      (|newText| >= |t[i].text| ==> r == tempEnd) &&
      (|newText| < |t[i].text| ==>
         r - tempStart >= MinClipDuration &&
         r - tempStart == Max(MinClipDuration, t[i].Duration() * (|newText| as real / |t[i].text| as real)))
  {
  }

  /** Halving the caption halves the clip, unless that falls below the floor. */
  lemma {:induction false} HalfTextHalvesDuration(t: Timeline, i: nat, tempStart: real, tempEnd: real, newText: string)
    requires i < |t| && |t[i].text| > 0 && 2 * |newText| == |t[i].text|
    ensures var r := ShrunkEndTime(t, i, tempStart, tempEnd, newText);
      r - tempStart == Max(MinClipDuration, t[i].Duration() / 2.0)
  {
    var n := |newText| as real;
    assert |t[i].text| as real == 2.0 * n;
    assert n / (2.0 * n) == 0.5;
  }

  /** With a non-negative original duration, shrinking never lengthens the
      clip beyond its original duration (or the floor). */
  lemma {:induction false} ShrinkNeverGrows(t: Timeline, i: nat, tempStart: real, tempEnd: real, newText: string)
    requires i < |t| && t[i].Duration() >= 0.0 && |newText| < |t[i].text|
    ensures ShrunkEndTime(t, i, tempStart, tempEnd, newText) - tempStart <= Max(MinClipDuration, t[i].Duration())
  {
    var ratio := |newText| as real / |t[i].text| as real;
    assert 0.0 <= ratio <= 1.0;
    assert t[i].Duration() * ratio <= t[i].Duration() * 1.0;
  }

  /** The catalogue shown in the sidebar: with the filter on, the segments
      not flagged redundant, in order; with it off, all of them. */
  function DisplaySegments(segs: seq<Segment>, filterEnabled: bool): (r: seq<Segment>)
    ensures !filterEnabled ==> r == segs
    ensures forall x :: x in r <==> x in segs && (!filterEnabled || !x.isRedundant)
    ensures forall x :: multiset(r)[x] == if !filterEnabled || !x.isRedundant then multiset(segs)[x] else 0
  {
    FilterCounts(segs, (s: Segment) => !s.isRedundant);
    if filterEnabled then Filter(segs, (s: Segment) => !s.isRedundant) else segs
  }

  /** The sidebar keeps the catalogue's order: the segments before and
      after a segment are shown as they would be on their own, and the
      segment itself is shown unless it is hidden as redundant. */
  lemma DisplaySplit(a: seq<Segment>, x: Segment, b: seq<Segment>, filterEnabled: bool)
    ensures DisplaySegments(a + [x] + b, filterEnabled)
         == DisplaySegments(a, filterEnabled) + (if !filterEnabled || !x.isRedundant then [x] else []) +
            DisplaySegments(b, filterEnabled)
  {
    if filterEnabled {
      var keep := (s: Segment) => !s.isRedundant;
      FilterAppend(a + [x], b, keep);
      FilterAppend(a, [x], keep);
      FilterSingleton(x, keep);
    }
  }

  /** The displayed total plus the time of the hidden redundant segments is
      the time of the whole catalogue. */
  lemma {:induction false} DisplayedTotalSplit(segs: seq<Segment>)
    ensures TotalDuration(DisplaySegments(segs, true)) + TotalDuration(Filter(segs, (s: Segment) => s.isRedundant))
            == TotalDuration(segs)
  {
    FilterSplit(segs, (s: Segment) => !s.isRedundant, (s: Segment) => s.isRedundant);
  }

  lemma {:induction false} FilterSplit(segs: seq<Segment>, p: Segment -> bool, q: Segment -> bool)
    requires forall s :: p(s) != q(s)
    ensures TotalDuration(Filter(segs, p)) + TotalDuration(Filter(segs, q)) == TotalDuration(segs)
  {
    if segs != [] {
      var init, last := segs[..|segs| - 1], segs[|segs| - 1];
      FilterSplit(init, p, q);
      assert TotalDuration(segs) == TotalDuration(init) + last.Duration();
      if p(last) {
        assert Filter(segs, p) == Filter(init, p) + [last];
        assert Filter(segs, q) == Filter(init, q);
        TotalDurationSnoc(Filter(init, p), last);
      } else {
        assert Filter(segs, q) == Filter(init, q) + [last];
        assert Filter(segs, p) == Filter(init, p);
        TotalDurationSnoc(Filter(init, q), last);
      }
    }
  }
}
