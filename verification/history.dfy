/**
 * The undo and redo stacks of the drawing component (`historyRef`,
 * `redoHistoryRef` in components/draw.tsx) as values, with the moves that
 * `undoRedo` makes between them.
 */
module History {
  import opened Render

  /** Both stacks; the last element of each sequence is its top. */
  datatype Stacks = Stacks(history: seq<ItemHistory>, redo: seq<ItemHistory>)

  function Reversed<T>(s: seq<T>): (r: seq<T>)
    ensures |r| == |s|
  {
    if s == [] then [] else Reversed(s[1..]) + [s[0]]
  }

  /**
   * The whole timeline the two stacks represent: what has been drawn, then
   * what was undone, most recently undone first.
   */
  function Timeline(s: Stacks): seq<ItemHistory>
  {
    s.history + Reversed(s.redo)
  }

  /** `undoRedo(true)`: pop the newest entry and push it onto the redo stack; nothing on an empty history. */
  function Undo(s: Stacks): (r: Stacks)
    ensures |s.history| == 0 ==> r == s
    ensures |s.history| > 0 ==>
              r.history + [s.history[|s.history| - 1]] == s.history
              && r.redo == s.redo + [s.history[|s.history| - 1]]
  {
    if |s.history| == 0 then s
    else Stacks(s.history[..|s.history| - 1], s.redo + [s.history[|s.history| - 1]])
  }

  /** `undoRedo(false)`: pop the top of the redo stack back onto the history; nothing on an empty redo stack. */
  function Redo(s: Stacks): (r: Stacks)
    ensures |s.redo| == 0 ==> r == s
    ensures |s.redo| > 0 ==>
              r.redo + [s.redo[|s.redo| - 1]] == s.redo
              && r.history == s.history + [s.redo[|s.redo| - 1]]
  {
    if |s.redo| == 0 then s
    else Stacks(s.history + [s.redo[|s.redo| - 1]], s.redo[..|s.redo| - 1])
  }

  lemma {:induction false} ReversedSnoc<T>(s: seq<T>, x: T)
    ensures Reversed(s + [x]) == [x] + Reversed(s)
  {
    if s != [] {
      assert (s + [x])[1..] == s[1..] + [x];
      ReversedSnoc(s[1..], x);
    } else {
      assert Reversed([x]) == Reversed([x][1..]) + [x];
    }
  }

  /** Undo and redo move the boundary between the stacks and never reorder, add or drop an entry. */
  lemma UndoKeepsTimeline(s: Stacks)
    ensures Timeline(Undo(s)) == Timeline(s)
  {
    if |s.history| > 0 {
      var last := s.history[|s.history| - 1];
      ReversedSnoc(s.redo, last);
      assert s.history == s.history[..|s.history| - 1] + [last];
    }
  }

  lemma RedoKeepsTimeline(s: Stacks)
    ensures Timeline(Redo(s)) == Timeline(s)
  {
    if |s.redo| > 0 {
      var top := s.redo[|s.redo| - 1];
      assert s.redo == s.redo[..|s.redo| - 1] + [top];
      ReversedSnoc(s.redo[..|s.redo| - 1], top);
    }
  }

  /** Redo right after an effective undo puts both stacks back exactly. */
  lemma RedoAfterUndo(s: Stacks)
    requires |s.history| > 0
    ensures Redo(Undo(s)) == s
  {
  }

  /** Undo right after an effective redo puts both stacks back exactly. */
  lemma UndoAfterRedo(s: Stacks)
    requires |s.redo| > 0
    ensures Undo(Redo(s)) == s
  {
  }

  function UndoTimes(s: Stacks, n: nat): Stacks
  {
    if n == 0 then s else Undo(UndoTimes(s, n - 1))
  }

  function RedoTimes(s: Stacks, n: nat): Stacks
    decreases n
  {
    if n == 0 then s else RedoTimes(Redo(s), n - 1)
  }

  lemma {:induction false} UndoTimesShape(s: Stacks, n: nat)
    requires n <= |s.history|
    ensures |UndoTimes(s, n).history| == |s.history| - n
    ensures UndoTimes(s, n).history == s.history[..|s.history| - n]
  {
    if n > 0 {
      UndoTimesShape(s, n - 1);
    }
  }

  /** n undos followed by n redos restore both stacks, for any n up to the history depth. */
  lemma {:induction false} UndoRedoTimes(s: Stacks, n: nat)
    requires n <= |s.history|
    ensures RedoTimes(UndoTimes(s, n), n) == s
  {
    if n > 0 {
      var before := UndoTimes(s, n - 1);
      UndoTimesShape(s, n - 1);
      assert |before.history| > 0;
      RedoAfterUndo(before);
      assert RedoTimes(UndoTimes(s, n), n) == RedoTimes(Redo(Undo(before)), n - 1);
      UndoRedoTimes(s, n - 1);
    }
  }

  /** Strokes A, B, C; undo twice, redo once: the history is A, B and C waits on the redo stack. */
  lemma ThreeStrokesScenario(a: ItemHistory, b: ItemHistory, c: ItemHistory)
    ensures Redo(Undo(Undo(Stacks([a, b, c], [])))) == Stacks([a, b], [c])
  {
    assert [a, b, c][..2] == [a, b];
    assert [a, b][..1] == [a];
  }
}
