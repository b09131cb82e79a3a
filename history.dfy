/**
  The undo/redo history of the editor (app.js, `saveState`, `undo`, `redo`):
  the current document and two stacks of snapshots, whose tops are their last
  elements. Snapshots are values, as the JSON text the editor keeps is.
 */
module UndoHistory {
  import opened Document

  datatype History = History(current: SiteConfig, undo: seq<SiteConfig>, redo: seq<SiteConfig>)

  /** The number of states the history holds. */
  function StateCount(h: History): nat
  {
    |h.undo| + |h.redo| + 1
  }

  /** `saveState`: push the current state on the undo stack, empty redo. */
  function SaveState(h: History): (r: History)
    ensures r.current == h.current && r.redo == []
    ensures |r.undo| == |h.undo| + 1 && r.undo[..|h.undo|] == h.undo && r.undo[|h.undo|] == h.current
  {
    History(h.current, h.undo + [h.current], [])
  }

  /** A snapshot followed by a change of the current document to `next`. */
  function Commit(h: History, next: SiteConfig): History
  {
    SaveState(h).(current := next)
  }

  /** `undo`: with an empty undo stack, nothing; else the current state goes
      on the redo stack and the top of the undo stack becomes current. */
  function Undo(h: History): (r: History)
    ensures |h.undo| == 0 ==> r == h
    ensures |h.undo| > 0 ==>
              && r.current == h.undo[|h.undo| - 1]
              && r.undo == h.undo[..|h.undo| - 1]
              && r.redo == h.redo + [h.current]
    ensures StateCount(r) == StateCount(h)
  {
    if |h.undo| > 0 then
      History(h.undo[|h.undo| - 1], h.undo[..|h.undo| - 1], h.redo + [h.current])
    else h
  }

  /** `redo`: the mirror image of `undo`. */
  function Redo(h: History): (r: History)
    ensures |h.redo| == 0 ==> r == h
    ensures |h.redo| > 0 ==>
              && r.current == h.redo[|h.redo| - 1]
              && r.redo == h.redo[..|h.redo| - 1]
              && r.undo == h.undo + [h.current]
    ensures StateCount(r) == StateCount(h)
  {
    if |h.redo| > 0 then
      History(h.redo[|h.redo| - 1], h.undo + [h.current], h.redo[..|h.redo| - 1])
    else h
  }

  /** An undo is taken back by a redo: document and both stacks return. */
  lemma RedoUndoes(h: History)
    requires |h.undo| > 0
    ensures Redo(Undo(h)) == h
  {
    assert h.undo[..|h.undo| - 1] + [h.undo[|h.undo| - 1]] == h.undo;
  }

  /** A redo is taken back by an undo. */
  lemma UndoRedoes(h: History)
    requires |h.redo| > 0
    ensures Undo(Redo(h)) == h
  {
    assert h.redo[..|h.redo| - 1] + [h.redo[|h.redo| - 1]] == h.redo;
  }

  /** Undo right after a committed change restores the document as it was
      before, with the old undo stack; redo then brings the change back. */
  lemma UndoAfterCommit(h: History, next: SiteConfig)
    ensures Undo(Commit(h, next)) == History(h.current, h.undo, [next])
    ensures Redo(Undo(Commit(h, next))) == Commit(h, next)
  {
    assert (h.undo + [h.current])[..|h.undo|] == h.undo;
  }

  /** A new snapshot clears the redo lane: redo has nothing to do after it. */
  lemma RedoAfterSaveDoesNothing(h: History)
    ensures Redo(SaveState(h)) == SaveState(h)
    ensures forall next :: Redo(Commit(h, next)) == Commit(h, next)
  {
  }

  // ---------------------------------------------------------------------------
  // The timeline view: undo and redo only move a cursor along a fixed list
  // ---------------------------------------------------------------------------

  function Reversed<T>(s: seq<T>): (r: seq<T>)
    ensures |r| == |s|
    decreases |s|
  {
    if |s| == 0 then [] else [s[|s| - 1]] + Reversed(s[..|s| - 1])
  }

  lemma {:induction false} ReversedAppend<T>(s: seq<T>, x: T)
    ensures Reversed(s + [x]) == [x] + Reversed(s)
  {
    assert (s + [x])[..|s|] == s;
  }

  lemma {:induction false} ReversedIndex<T>(s: seq<T>, i: nat)
    requires i < |s|
    ensures Reversed(s)[i] == s[|s| - 1 - i]
    decreases |s|
  {
    if i > 0 {
      ReversedIndex(s[..|s| - 1], i - 1);
    }
  }

  lemma ReversedInjective<T>(s: seq<T>, t: seq<T>)
    requires Reversed(s) == Reversed(t)
    ensures s == t
  {
    forall i | 0 <= i < |s| ensures s[i] == t[i] {
      ReversedIndex(s, |s| - 1 - i);
      ReversedIndex(t, |s| - 1 - i);
    }
  }

  /** All states of the history, oldest first: the undo stack, the current
      document, then the redo stack from its top down. */
  function Timeline(h: History): (r: seq<SiteConfig>)
    ensures |r| == StateCount(h)
  {
    h.undo + [h.current] + Reversed(h.redo)
  }

  /** The position of the current document on the timeline. */
  function Cursor(h: History): nat
  {
    |h.undo|
  }

  /** A history is its timeline and its cursor. */
  lemma {:induction false} TimelineDetermines(h1: History, h2: History)
    requires Timeline(h1) == Timeline(h2) && Cursor(h1) == Cursor(h2)
    ensures h1 == h2
  {
    var t, n := Timeline(h1), Cursor(h1);
    assert h1.undo == t[..n] == h2.undo;
    assert h1.current == t[n] == h2.current;
    assert Reversed(h1.redo) == t[n + 1..] == Reversed(h2.redo);
    ReversedInjective(h1.redo, h2.redo);
  }

  /** Undo keeps the timeline and moves the cursor back by one. */
  lemma UndoMovesCursor(h: History)
    ensures Timeline(Undo(h)) == Timeline(h)
    ensures Cursor(Undo(h)) == if |h.undo| > 0 then Cursor(h) - 1 else Cursor(h)
  {
    if |h.undo| > 0 {
      var u, c := h.undo[..|h.undo| - 1], h.undo[|h.undo| - 1];
      ReversedAppend(h.redo, h.current);
      assert h.undo == u + [c];
    }
  }

  /** Redo keeps the timeline and moves the cursor forward by one. */
  lemma RedoMovesCursor(h: History)
    ensures Timeline(Redo(h)) == Timeline(h)
    ensures Cursor(Redo(h)) == if |h.redo| > 0 then Cursor(h) + 1 else Cursor(h)
  {
    if |h.redo| > 0 {
      var rs, c := h.redo[..|h.redo| - 1], h.redo[|h.redo| - 1];
      assert h.redo == rs + [c];
      ReversedAppend(rs, c);
    }
  }

  /** `SaveState` drops the states ahead of the cursor and repeats the
      current one. */
  lemma SaveTruncatesTimeline(h: History)
    ensures Timeline(SaveState(h)) == Timeline(h)[..Cursor(h) + 1] + [h.current]
    ensures Cursor(SaveState(h)) == Cursor(h) + 1
  {
    assert Timeline(h)[..Cursor(h) + 1] == h.undo + [h.current];
  }

  function UndoTimes(h: History, n: nat): History
    decreases n
  {
    if n == 0 then h else UndoTimes(Undo(h), n - 1)
  }

  function RedoTimes(h: History, n: nat): History
    decreases n
  {
    if n == 0 then h else RedoTimes(Redo(h), n - 1)
  }

  lemma {:induction false} UndoTimesMovesCursor(h: History, n: nat)
    requires n <= |h.undo|
    ensures Timeline(UndoTimes(h, n)) == Timeline(h)
    ensures Cursor(UndoTimes(h, n)) == Cursor(h) - n
    decreases n
  {
    if n > 0 {
      UndoMovesCursor(h);
      UndoTimesMovesCursor(Undo(h), n - 1);
    }
  }

  lemma {:induction false} RedoTimesMovesCursor(h: History, n: nat)
    requires n <= |h.redo|
    ensures Timeline(RedoTimes(h, n)) == Timeline(h)
    ensures Cursor(RedoTimes(h, n)) == Cursor(h) + n
    decreases n
  {
    if n > 0 {
      RedoMovesCursor(h);
      RedoTimesMovesCursor(Redo(h), n - 1);
    }
  }

  /** Any number of undos, as many as the stack allows, is taken back by the
      same number of redos. */
  lemma UndoTimesThenRedoTimes(h: History, n: nat)
    requires n <= |h.undo|
    ensures RedoTimes(UndoTimes(h, n), n) == h
  {
    var back := UndoTimes(h, n);
    UndoTimesMovesCursor(h, n);
    assert |back.redo| == |h.redo| + n by {
      assert |Timeline(back)| == |Timeline(h)|;
    }
    RedoTimesMovesCursor(back, n);
    TimelineDetermines(RedoTimes(back, n), h);
  }
}
