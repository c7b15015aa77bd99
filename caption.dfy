// Caption layout of App.tsx wrapText: character-based greedy line
// wrapping, the optional background box and the bottom-to-top draw order.
// The canvas text measure (`ctx.measureText(...).width`) is a parameter:
// any non-negative width per string, with no assumption that it is additive.

module Caption {
  import opened Types

  /** A non-negative pixel width. */
  type Width = x: real | 0.0 <= x

  /** Concatenation of the lines. */
  function Flatten(lines: seq<string>): string
  {
    if lines == [] then [] else lines[0] + Flatten(lines[1..])
  }

  /** Lines produced when the current line is `line` and `rest` is still to
      be placed: each character joins the line unless the widened line is
      wider than `maxWidth`, in which case the line is flushed and the
      character starts the next one. */
  function Continue(line: string, rest: string, measure: string -> Width, maxWidth: real): seq<string>
    decreases |rest|
  {
    if rest == [] then [line]
    else
      var test := line + [rest[0]];
      if measure(test) > maxWidth then [line] + Continue([rest[0]], rest[1..], measure, maxWidth)
      else Continue(test, rest[1..], measure, maxWidth)
  }

  /** The lines of `text`: the first character always opens the first line;
      the empty text gives one empty line. */
  function Wrap(text: string, measure: string -> Width, maxWidth: real): seq<string>
  {
    if text == [] then [""] else Continue([text[0]], text[1..], measure, maxWidth)
  }

  /** A line is non-empty and fits, or is a lone character too wide to fit. */
  predicate LineFits(line: string, measure: string -> Width, maxWidth: real) {
    |line| >= 1 && (measure(line) <= maxWidth || |line| == 1)
  }

  /** The line `a` could not have taken the first character of `b`. */
  predicate Greedy(a: string, b: string, measure: string -> Width, maxWidth: real) {
    |b| >= 1 && measure(a + b[..1]) > maxWidth
  }

  /** Every line fits and no line could have taken the next line's first
      character. */
  predicate WellWrapped(lines: seq<string>, measure: string -> Width, maxWidth: real)
  {
    (forall i :: 0 <= i < |lines| ==> LineFits(lines[i], measure, maxWidth)) &&
    (forall i :: 0 <= i < |lines| - 1 ==> Greedy(lines[i], lines[i + 1], measure, maxWidth))
  }

  lemma ContinueUnfold(line: string, rest: string, measure: string -> Width, maxWidth: real)
    requires rest != []
    ensures Continue(line, rest, measure, maxWidth) ==
      if measure(line + [rest[0]]) > maxWidth then [line] + Continue([rest[0]], rest[1..], measure, maxWidth)
      else Continue(line + [rest[0]], rest[1..], measure, maxWidth)
  {
  }

  /** The lines tile `line + rest` and the first one extends `line`. */
  lemma {:induction false} ContinueTiles(line: string, rest: string, measure: string -> Width, maxWidth: real)
    ensures var ls := Continue(line, rest, measure, maxWidth);
      |ls| >= 1 && line <= ls[0] && Flatten(ls) == line + rest
    decreases |rest|
  {
    var ls := Continue(line, rest, measure, maxWidth);
    if rest == [] {
      assert Flatten(ls) == line + Flatten([]);
      assert line + rest == line;
    } else {
      var c, tail := rest[0], rest[1..];
      var test := line + [c];
      assert rest == [c] + tail;
      ContinueUnfold(line, rest, measure, maxWidth);
      if measure(test) > maxWidth {
        var ls' := Continue([c], tail, measure, maxWidth);
        ContinueTiles([c], tail, measure, maxWidth);
        assert ls == [line] + ls';
        assert ls[1..] == ls';
        assert Flatten(ls) == line + Flatten(ls');
        assert line + rest == line + ([c] + tail);
      } else {
        ContinueTiles(test, tail, measure, maxWidth);
        assert line + rest == test + tail;
      }
    }
  }

  /** Starting from a line that fits, every line fits and each flush was forced. */
  lemma {:induction false} ContinueWellWrapped(line: string, rest: string, measure: string -> Width, maxWidth: real)
    requires LineFits(line, measure, maxWidth)
    ensures WellWrapped(Continue(line, rest, measure, maxWidth), measure, maxWidth)
    decreases |rest|
  {
    if rest != [] {
      var c, tail := rest[0], rest[1..];
      var test := line + [c];
      ContinueUnfold(line, rest, measure, maxWidth);
      if measure(test) > maxWidth {
        var ls' := Continue([c], tail, measure, maxWidth);
        ContinueWellWrapped([c], tail, measure, maxWidth);
        ContinueTiles([c], tail, measure, maxWidth);
        var ls := [line] + ls';
        assert ls'[0][..1] == [c];
        assert Greedy(line, ls'[0], measure, maxWidth);
        forall i | 0 <= i < |ls|
          ensures LineFits(ls[i], measure, maxWidth)
        {
          if i > 0 { assert ls[i] == ls'[i - 1]; }
        }
        forall i | 0 <= i < |ls| - 1
          ensures Greedy(ls[i], ls[i + 1], measure, maxWidth)
        {
          if i > 0 { assert ls[i] == ls'[i - 1] && ls[i + 1] == ls'[i]; }
        }
      } else {
        ContinueWellWrapped(test, tail, measure, maxWidth);
      }
    }
  }

  /** The lines tile the text exactly and there is at least one; the empty
      text gives one empty line, any other text a well-formed wrapping. */
  lemma WrapProperties(text: string, measure: string -> Width, maxWidth: real)
    ensures var ls := Wrap(text, measure, maxWidth);
      |ls| >= 1 && Flatten(ls) == text &&
      (text == [] ==> ls == [""]) &&
      (text != [] ==> WellWrapped(ls, measure, maxWidth))
  {
    if text == [] {
      assert Flatten([""]) == "" + Flatten([]);
    } else {
      ContinueTiles([text[0]], text[1..], measure, maxWidth);
      ContinueWellWrapped([text[0]], text[1..], measure, maxWidth);
      assert [text[0]] + text[1..] == text;
    }
  }

  /** The text cut into consecutive pieces of `m` characters, the last
      piece possibly shorter (one empty piece for the empty text). */
  function Chunks(s: string, m: nat): seq<string>
    requires m >= 1
    decreases |s|
  {
    if |s| <= m then [s] else [s[..m]] + Chunks(s[m..], m)
  }

  lemma {:induction false} ContinueFixedWidth(line: string, rest: string, measure: string -> Width, m: nat)
    requires forall s :: measure(s) == |s| as real
    requires 1 <= |line| <= m
    ensures Continue(line, rest, measure, m as real) == Chunks(line + rest, m)
    decreases |rest|
  {
    if rest == [] {
      assert line + rest == line;
    } else {
      var c, tail := rest[0], rest[1..];
      ContinueUnfold(line, rest, measure, m as real);
      if |line| == m {
        ContinueFixedWidth([c], tail, measure, m);
        assert [c] + tail == rest;
        assert (line + rest)[..m] == line && (line + rest)[m..] == rest;
      } else {
        ContinueFixedWidth(line + [c], tail, measure, m);
        assert (line + [c]) + tail == line + rest;
      }
    }
  }

  /** When every string measures its length and an integral maximum width `m`, the
      wrapping cuts the text every `m` characters. */
  lemma WrapFixedWidth(text: string, measure: string -> Width, m: nat)
    requires forall s :: measure(s) == |s| as real
    requires m >= 1
    ensures Wrap(text, measure, m as real) == Chunks(text, m)
  {
    if text != [] {
      ContinueFixedWidth([text[0]], text[1..], measure, m);
      assert [text[0]] + text[1..] == text;
    }
  }

  /** Eight characters measured by their count against a maximum width of 3 wrap into
      "ABC", "DEF", "GH". */
  lemma ThreePerLine(measure: string -> Width)
    requires forall s :: measure(s) == |s| as real
    ensures Wrap("ABCDEFGH", measure, 3.0) == ["ABC", "DEF", "GH"]
  {
    WrapFixedWidth("ABCDEFGH", measure, 3);
    assert "ABCDEFGH"[..3] == "ABC" && "ABCDEFGH"[3..] == "DEFGH";
    assert "DEFGH"[..3] == "DEF" && "DEFGH"[3..] == "GH";
    assert Chunks("GH", 3) == ["GH"];
  }

  /** The widest line's width (`Math.max` over the measured lines). */
  function MaxWidth(lines: seq<string>, measure: string -> Width): (r: Width)
    requires |lines| >= 1
    ensures forall i :: 0 <= i < |lines| ==> measure(lines[i]) <= r
    ensures exists i :: 0 <= i < |lines| && measure(lines[i]) == r
  {
    if |lines| == 1 then measure(lines[0])
    else
      var m := MaxWidth(lines[1..], measure);
      assert forall i :: 1 <= i < |lines| ==> lines[i] == lines[1..][i - 1];
      if measure(lines[0]) >= m then measure(lines[0]) else m
  }

  /** Fixed padding of the background box, in pixels. */
  const BoxSidePadding: real := 15.0
  const BoxExtraHeight: real := 10.0

  datatype Rect = Rect(left: real, top: real, width: real, height: real)

  /** The background box: as wide as the widest line plus 15 px on each
      side, centred on the anchor, from 10 px below the top line's ascent
      (one line height above its baseline) down for all lines plus 10 px. */
  function BackgroundBox(lines: seq<string>, measure: string -> Width, x: real, y: real, lineHeight: real): (r: Rect)
    requires |lines| >= 1
  {
    var n := |lines| as real;
    var maxLineWidth := MaxWidth(lines, measure);
    Rect(x - maxLineWidth / 2.0 - BoxSidePadding,
         y - (n - 1.0) * lineHeight - lineHeight + BoxExtraHeight,
         maxLineWidth + 2.0 * BoxSidePadding,
         n * lineHeight + BoxExtraHeight)
  }

  /** The box is centred on the anchor, covers every (centred) line with
      15 px to spare on each side, and its bottom edge sits 20 px below the
      anchor whatever the number of lines. */
  lemma BackgroundBoxGeometry(lines: seq<string>, measure: string -> Width, x: real, y: real, lineHeight: real)
    requires |lines| >= 1
    ensures var b := BackgroundBox(lines, measure, x, y, lineHeight);
      b.left + b.width / 2.0 == x &&
      b.top + b.height == y + 2.0 * BoxExtraHeight &&
      b.top == BaselineOf(|lines|, 0, y, lineHeight) - lineHeight + BoxExtraHeight &&
      forall i :: 0 <= i < |lines| ==>
        b.left + BoxSidePadding <= x - measure(lines[i]) / 2.0 &&
        x + measure(lines[i]) / 2.0 <= b.left + b.width - BoxSidePadding
  {
  }

  /** The baseline of line `i` out of `count`: the last line sits on the
      anchor, earlier ones are stacked upward one line height apart. */
  function BaselineOf(count: nat, i: nat, y: real, lineHeight: real): real
  {
    y - (count - 1 - i) as real * lineHeight
  }

  datatype DrawKind = Stroke | Fill

  /** One canvas text call: `strokeText` or `fillText` of a line at (x, y). */
  datatype TextDraw = TextDraw(kind: DrawKind, text: string, x: real, y: real)

  /** Everything one caption drawing produces. */
  datatype Layout = Layout(lines: seq<string>, box: Option<Rect>, draws: seq<TextDraw>)

  /** The text calls for lines `j..` drawn from the last line back to line
      `j`, each line stroked and then filled at its baseline. */
  function DrawSequence(lines: seq<string>, j: nat, x: real, y: real, lineHeight: real): seq<TextDraw>
    requires j <= |lines|
    decreases |lines| - j
  {
    if j == |lines| then []
    else
      var lineY := BaselineOf(|lines|, j, y, lineHeight);
      DrawSequence(lines, j + 1, x, y, lineHeight) + [TextDraw(Stroke, lines[j], x, lineY), TextDraw(Fill, lines[j], x, lineY)]
  }

  /** Call 2k strokes and call 2k+1 fills the k-th line counted from the bottom. */
  lemma {:induction false} DrawSequenceOrder(lines: seq<string>, j: nat, x: real, y: real, lineHeight: real)
    requires j <= |lines|
    ensures var d := DrawSequence(lines, j, x, y, lineHeight);
      |d| == 2 * (|lines| - j) &&
      forall k :: 0 <= k < |lines| - j ==>
        var i := |lines| - 1 - k;
        d[2 * k] == TextDraw(Stroke, lines[i], x, BaselineOf(|lines|, i, y, lineHeight)) &&
        d[2 * k + 1] == TextDraw(Fill, lines[i], x, BaselineOf(|lines|, i, y, lineHeight))
    decreases |lines| - j
  {
    if j < |lines| {
      DrawSequenceOrder(lines, j + 1, x, y, lineHeight);
    }
  }

  /** Lay out and draw a caption: wrap `text` into lines no wider than
      `maxWidth`, optionally compute the background box, then draw the
      lines from the last to the first, each stroked then filled. */
  method WrapText(text: string, measure: string -> Width, x: real, y: real, maxWidth: real, lineHeight: real, drawBg: bool)
    returns (layout: Layout)
    ensures layout.lines == Wrap(text, measure, maxWidth)
    ensures |layout.lines| >= 1 && Flatten(layout.lines) == text
    ensures text != [] ==> WellWrapped(layout.lines, measure, maxWidth)
    ensures layout.box == (if drawBg then Some(BackgroundBox(layout.lines, measure, x, y, lineHeight)) else None)
    ensures layout.draws == DrawSequence(layout.lines, 0, x, y, lineHeight)
  {
    var lines := SplitLines(text, measure, maxWidth);
    WrapProperties(text, measure, maxWidth);
    var box: Option<Rect> := None;
    if drawBg {
      box := Some(BackgroundBox(lines, measure, x, y, lineHeight));
    }
    var draws := DrawLines(lines, x, y, lineHeight);
    layout := Layout(lines, box, draws);
  }

  /** The line-splitting loop of `wrapText`. */
  method SplitLines(text: string, measure: string -> Width, maxWidth: real) returns (lines: seq<string>)
    ensures lines == Wrap(text, measure, maxWidth)
  {
    var line: string := "";
    lines := [];
    var n := 0;
    while n < |text|
      invariant 0 <= n <= |text|
      invariant n == 0 ==> line == "" && lines == []
      invariant n > 0 ==> |line| >= 1 && lines + Continue(line, text[n..], measure, maxWidth) == Wrap(text, measure, maxWidth)
    {
      var testLine := line + [text[n]];
      if n == 0 {
        line := testLine;
        assert line == [text[0]];
      } else {
        assert text[n..][0] == text[n] && text[n..][1..] == text[n + 1..];
        ContinueUnfold(line, text[n..], measure, maxWidth);
        if measure(testLine) > maxWidth {
          assert Continue(line, text[n..], measure, maxWidth) == [line] + Continue([text[n]], text[n + 1..], measure, maxWidth);
          assert lines + ([line] + Continue([text[n]], text[n + 1..], measure, maxWidth))
              == (lines + [line]) + Continue([text[n]], text[n + 1..], measure, maxWidth);
          lines := lines + [line];
          line := [text[n]];
        } else {
          line := testLine;
        }
      }
      n := n + 1;
    }
    if n > 0 {
      assert text[n..] == [];
      assert Continue(line, text[n..], measure, maxWidth) == [line];
    }
    lines := lines + [line];
  }

  /** The drawing loop of `wrapText`: from the last line to the first, a
      stroke then a fill at each line's baseline. */
  method DrawLines(lines: seq<string>, x: real, y: real, lineHeight: real) returns (draws: seq<TextDraw>)
    ensures draws == DrawSequence(lines, 0, x, y, lineHeight)
  {
    draws := [];
    var i := |lines| - 1;
    while i >= 0
      invariant -1 <= i < |lines|
      invariant draws == DrawSequence(lines, i + 1, x, y, lineHeight)
    {
      var lineY := BaselineOf(|lines|, i, y, lineHeight);
      draws := draws + [TextDraw(Stroke, lines[i], x, lineY), TextDraw(Fill, lines[i], x, lineY)];
      i := i - 1;
    }
  }

  /** The last line is drawn on the anchor and each earlier line one line
      height above the next. */
  lemma BaselinesStackUpward(count: nat, i: nat, y: real, lineHeight: real)
    requires 1 <= i < count
    ensures BaselineOf(count, count - 1, y, lineHeight) == y
    ensures BaselineOf(count, i - 1, y, lineHeight) == BaselineOf(count, i, y, lineHeight) - lineHeight
  {
  }
}
