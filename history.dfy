// Bounded undo history of timeline snapshots with a cursor
// (App.tsx, updateSegmentsWithHistory / undo / redo).

module History {
  import opened Types

  /** The cap on the number of kept snapshots. */
  const MaxHistory: nat := 50

  /** The history list and the index of the snapshot on screen. */
  datatype State = State(snapshots: seq<Timeline>, cursor: int)
  {
    /** The bounded-stack invariant: at least one snapshot, at most the
        cap, and the cursor points at one of them. */
    predicate Valid() {
      1 <= |snapshots| <= MaxHistory && 0 <= cursor < |snapshots|
    }

    /** The timeline the cursor points at. */
    function Current(): Timeline
      requires Valid()
    {
      snapshots[cursor]
    }

    function LastIndex(): int { |snapshots| - 1 }
  }

  /** One empty snapshot, cursor on it. */
  function Initial(): (r: State)
    ensures r.Valid() && r.Current() == []
  {
    State([[]], 0)
  }

  /** Commit a new timeline: cut the redo future after the cursor, append,
      and drop the oldest snapshot when the list grows past the cap. The
      cursor is moved to the new last slot only when nothing was dropped. */
  function Commit(st: State, s: Timeline): (r: State)
    requires st.Valid()
    ensures r.Valid()
    ensures r.cursor == r.LastIndex() && r.Current() == s
    ensures |r.snapshots| <= st.cursor + 2
  {
    var kept := st.snapshots[..st.cursor + 1] + [s];
    if |kept| > MaxHistory then State(kept[1..], st.cursor)
    else State(kept, |kept| - 1)
  }

  /** Step the cursor back when there is an older snapshot. */
  function Undo(st: State): (r: State)
    requires st.Valid()
    ensures r.Valid() && r.snapshots == st.snapshots
    ensures st.cursor > 0 ==> r.cursor == st.cursor - 1
    ensures st.cursor == 0 ==> r == st
  {
    if st.cursor > 0 then State(st.snapshots, st.cursor - 1) else st
  }

  /** Step the cursor forward when there is a newer snapshot. */
  function Redo(st: State): (r: State)
    requires st.Valid()
    ensures r.Valid() && r.snapshots == st.snapshots
    ensures st.cursor < st.LastIndex() ==> r.cursor == st.cursor + 1
    ensures st.cursor == st.LastIndex() ==> r == st
  {
    if st.cursor < |st.snapshots| - 1 then State(st.snapshots, st.cursor + 1) else st
  }

  /** Below the cap a commit keeps every snapshot up to the old cursor;
      at the cap the list was full with the cursor at its end and only the
      oldest snapshot is dropped. */
  lemma CommitKeepsPast(st: State, s: Timeline)
    requires st.Valid()
    ensures var r := Commit(st, s);
      if st.cursor + 2 <= MaxHistory then
        r.snapshots == st.snapshots[..st.cursor + 1] + [s]
      else
        st.cursor == MaxHistory - 1 && |st.snapshots| == MaxHistory &&
        r.snapshots == st.snapshots[1..] + [s]
  {
    if st.cursor + 2 > MaxHistory {
      assert st.snapshots[..st.cursor + 1] == st.snapshots;
      var kept := st.snapshots + [s];
      assert kept[1..] == st.snapshots[1..] + [s];
    }
  }

  /** Undo right after a commit shows the timeline that was current before it. */
  lemma UndoAfterCommit(st: State, s: Timeline)
    requires st.Valid()
    ensures Undo(Commit(st, s)).Current() == st.Current()
  {
    CommitKeepsPast(st, s);
    var r := Commit(st, s);
    if st.cursor + 2 > MaxHistory {
      assert r.snapshots[r.cursor - 1] == st.snapshots[1..][st.cursor - 1];
    }
  }

  /** A commit leaves nothing to redo. */
  lemma CommitDiscardsRedo(st: State, s: Timeline)
    requires st.Valid()
    ensures Redo(Commit(st, s)) == Commit(st, s)
  {
  }

  /** Redo undoes an undo, and undo undoes a redo. */
  lemma UndoRedoInverse(st: State)
    requires st.Valid()
    ensures st.cursor > 0 ==> Redo(Undo(st)) == st
    ensures st.cursor < st.LastIndex() ==> Undo(Redo(st)) == st
  {
  }

  /** The three user actions on the history. */
  datatype Action = CommitTimeline(timeline: Timeline) | UndoAction | RedoAction

  function Apply(st: State, a: Action): (r: State)
    requires st.Valid()
    ensures r.Valid()
  {
    match a
    case CommitTimeline(s) => Commit(st, s)
    case UndoAction => Undo(st)
    case RedoAction => Redo(st)
  }

  /** The history after a sequence of actions from the initial state. */
  function Run(actions: seq<Action>): (r: State)
    ensures r.Valid()
  {
    if actions == [] then Initial()
    else Apply(Run(actions[..|actions| - 1]), actions[|actions| - 1])
  }
}
