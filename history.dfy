/**
 * The editor's linear undo/redo history: a stack of parameter snapshots,
 * a cursor into it that starts at -1, and the live parameters that undo
 * and redo overwrite.
 *
 * The functions over `Editor` values specify each operation; the class
 * `EditorSession` holds the same three pieces of state as fields and
 * updates them in place, with each method proved against its function.
 */
module History {
  import opened Transform
  import opened EditorParams

  /** The live parameters, the history stack and the cursor (`historyIndex`). */
  datatype Editor = Editor(params: Snapshot, stack: seq<Snapshot>, index: int)

  /** The cursor is -1 exactly when the stack is empty, and otherwise points into it. */
  predicate Valid(e: Editor)
  {
    -1 <= e.index < |e.stack| && (e.index == -1 <==> e.stack == [])
  }

  /** The live parameters are the snapshot under the cursor. */
  predicate Synced(e: Editor)
  {
    0 <= e.index < |e.stack| && e.params == e.stack[e.index]
  }

  /** Every live and stored snapshot is inside the controls' ranges. */
  predicate AllInBounds(e: Editor)
  {
    InBounds(e.params) && forall i | 0 <= i < |e.stack| :: InBounds(e.stack[i])
  }

  /** The undo button is enabled (it is disabled when `historyIndex <= 0`). */
  predicate CanUndo(e: Editor)
  {
    e.index > 0
  }

  /** The redo button is enabled (it is disabled when `historyIndex >= historyStack.length - 1`). */
  predicate CanRedo(e: Editor)
  {
    e.index < |e.stack| - 1
  }

  /** A session that has not saved anything yet. */
  function Start(p: Snapshot): (e: Editor)
    ensures Valid(e) && !CanUndo(e) && !CanRedo(e)
    ensures e.params == p
    ensures e.stack == [] && e.index == -1
  {
    Editor(p, [], -1)
  }

  /**
   * `saveState` with the snapshot it records: keep the entries up to and
   * including the cursor, append the snapshot, and move the cursor to it.
   */
  function Commit(e: Editor, s: Snapshot): (r: Editor)
    requires Valid(e)
    ensures Valid(r) && !CanRedo(r)
    ensures r.stack == e.stack[..e.index + 1] + [s]
    ensures r.index == |r.stack| - 1 && r.stack[r.index] == s
    ensures r.params == e.params
    ensures e.index == -1 ==> r.stack == [s] && r.index == 0
    ensures CanUndo(r) <==> e.index >= 0
    ensures AllInBounds(e) && InBounds(s) ==> AllInBounds(r)
  {
    Editor(e.params, e.stack[..e.index + 1] + [s], e.index + 1)
  }

  /** `handleUndo`: move the cursor back one and restore that snapshot, if the cursor is above 0. */
  function Undo(e: Editor): (r: Editor)
    requires Valid(e)
    ensures Valid(r) && r.stack == e.stack
    ensures CanUndo(e) ==> r.index == e.index - 1 && r.params == e.stack[e.index - 1]
    ensures CanUndo(e) ==> Synced(r) && CanRedo(r)
    ensures !CanUndo(e) ==> r == e
    ensures AllInBounds(e) ==> AllInBounds(r)
  {
    if e.index > 0 then
      var newIndex := e.index - 1;
      Editor(e.stack[newIndex], e.stack, newIndex)
    else e
  }

  /** `handleRedo`: move the cursor forward one and restore that snapshot, if it is below the top. */
  function Redo(e: Editor): (r: Editor)
    requires Valid(e)
    ensures Valid(r) && r.stack == e.stack
    ensures CanRedo(e) ==> r.index == e.index + 1 && r.params == e.stack[e.index + 1]
    ensures CanRedo(e) ==> Synced(r) && CanUndo(r)
    ensures !CanRedo(e) ==> r == e
    ensures AllInBounds(e) ==> AllInBounds(r)
  {
    if e.index < |e.stack| - 1 then
      var newIndex := e.index + 1;
      Editor(e.stack[newIndex], e.stack, newIndex)
    else e
  }

  /** Undo then redo comes back to the same cursor and restores the snapshot under it. */
  lemma UndoThenRedo(e: Editor)
    requires Valid(e) && CanUndo(e)
    ensures Redo(Undo(e)) == e.(params := e.stack[e.index])
    ensures Synced(e) ==> Redo(Undo(e)) == e
  {
  }

  /** Redo then undo comes back to the same cursor and restores the snapshot under it. */
  lemma RedoThenUndo(e: Editor)
    requires Valid(e) && CanRedo(e) && e.index >= 0
    ensures Undo(Redo(e)) == e.(params := e.stack[e.index])
    ensures Synced(e) ==> Undo(Redo(e)) == e
  {
  }

  /** `n` presses of undo. */
  function UndoTimes(e: Editor, n: nat): (r: Editor)
    requires Valid(e)
    ensures Valid(r) && r.stack == e.stack
    ensures n <= e.index ==> r.index == e.index - n
    ensures 0 < n <= e.index ==> Synced(r)
  {
    if n == 0 then e else Undo(UndoTimes(e, n - 1))
  }

  /**
   * `n` presses of redo: the cursor moves up by `n`, stopping at the top
   * of the stack, and once it has moved the parameters are the snapshot
   * under it.
   */
  function RedoTimes(e: Editor, n: nat): (r: Editor)
    requires Valid(e)
    ensures Valid(r) && r.stack == e.stack
    ensures r.index == if e.index + n < |e.stack| then e.index + n else |e.stack| - 1
    ensures Synced(e) ==> Synced(r)
    ensures n > 0 && CanRedo(e) ==> Synced(r)
    decreases n
  {
    if n == 0 then e else RedoTimes(Redo(e), n - 1)
  }

  /**
   * `n` undos followed by `n` redos, with `n` no more than the history
   * depth, give back the state the undos started from.
   */
  lemma {:induction false} UndoRedoTimes(e: Editor, n: nat)
    requires Valid(e) && Synced(e) && n <= e.index
    ensures RedoTimes(UndoTimes(e, n), n) == e
  {
    if n > 0 {
      var u := UndoTimes(e, n - 1);
      assert UndoTimes(e, n) == Undo(u);
      assert Synced(u) && CanUndo(u);
      UndoThenRedo(u);
      assert Redo(Undo(u)) == u;
      UndoRedoTimes(e, n - 1);
    }
  }

  /** Once at least one undo has happened, the live parameters no longer matter: undo overwrites them. */
  lemma {:induction false} UndoTimesForgetsParams(e: Editor, n: nat)
    requires Valid(e) && 0 < n <= e.index
    ensures UndoTimes(e, n) == UndoTimes(e.(params := e.stack[e.index]), n)
  {
    if n > 1 {
      UndoTimesForgetsParams(e, n - 1);
    }
  }

  /**
   * `n` undos followed by `n` redos, for `0 < n` no more than the history
   * depth, give back the cursor and the snapshot under it, whether or not
   * the live parameters were in step with the stack.
   */
  lemma UndoRedoTimesUnsynced(e: Editor, n: nat)
    requires Valid(e) && 0 < n <= e.index
    ensures RedoTimes(UndoTimes(e, n), n) == e.(params := e.stack[e.index])
  {
    UndoTimesForgetsParams(e, n);
    UndoRedoTimes(e.(params := e.stack[e.index]), n);
  }

  /** At the top of the stack redo does nothing, however often it is pressed. */
  lemma {:induction false} RedoAtTopIsNoOp(e: Editor, n: nat)
    requires Valid(e) && !CanRedo(e)
    ensures RedoTimes(e, n) == e
  {
    if n > 0 {
      RedoAtTopIsNoOp(e, n - 1);
    }
  }

  /**
   * Committing after undo throws away every entry beyond the cursor: the
   * new stack is the kept prefix plus the new snapshot, and no number of
   * redos reaches any entry that was above the cursor.
   */
  lemma CommitDiscardsRedo(e: Editor, s: Snapshot, n: nat)
    requires Valid(e)
    ensures |Commit(e, s).stack| == e.index + 2
    ensures RedoTimes(Commit(e, s), n) == Commit(e, s)
  {
    RedoAtTopIsNoOp(Commit(e, s), n);
  }

  /** Commit A, B, C; undo once; commit D: the history is exactly [A, B, D] and redo is disabled. */
  lemma CommitUndoCommitScenario(p: Snapshot, a: Snapshot, b: Snapshot, c: Snapshot, d: Snapshot)
    ensures var e := Commit(Undo(Commit(Commit(Commit(Start(p), a), b), c)), d);
      e.stack == [a, b, d] && e.index == 2 && !CanRedo(e) && e.params == b
  {
    var e3 := Commit(Commit(Commit(Start(p), a), b), c);
    assert e3.stack == [a, b, c];
    var u := Undo(e3);
    assert u.index == 1 && u.params == b;
    assert u.stack[..2] == [a, b];
  }

  /* The rotate and zoom handlers call the `saveState` closure of the render
     they were created in; that closure reads the state variables of that
     render, so the snapshot they record is the one from before the change. */

  /** A button handler as written: record the current parameters, then change them. */
  function CommitThenSet(e: Editor, p: Snapshot): (r: Editor)
    requires Valid(e)
    ensures Valid(r) && r.params == p && r.index >= 0 && r.stack[r.index] == e.params
    ensures r.stack == e.stack[..e.index + 1] + [e.params] && r.index == e.index + 1
    ensures AllInBounds(e) && InBounds(p) ==> AllInBounds(r)
  {
    Commit(e, e.params).(params := p)
  }

  /** The rotate button as written. */
  function RotateAsWritten(e: Editor, d: Direction): (r: Editor)
    requires Valid(e)
    ensures Valid(r) && r.params == e.params.(rotation := RotateStep(e.params.rotation, d))
    ensures r.stack == e.stack[..e.index + 1] + [e.params] && r.index == e.index + 1
    ensures AllInBounds(e) ==> AllInBounds(r)
  {
    CommitThenSet(e, e.params.(rotation := RotateStep(e.params.rotation, d)))
  }

  /** The zoom-in button as written. */
  function ZoomInAsWritten(e: Editor): (r: Editor)
    requires Valid(e)
    ensures Valid(r) && r.params.zoomTenths <= ZoomMax
    ensures r.params == e.params.(zoomTenths := ZoomIn(e.params.zoomTenths))
    ensures r.stack == e.stack[..e.index + 1] + [e.params] && r.index == e.index + 1
    ensures AllInBounds(e) ==> AllInBounds(r)
  {
    CommitThenSet(e, e.params.(zoomTenths := ZoomIn(e.params.zoomTenths)))
  }

  /** The zoom-out button as written. */
  function ZoomOutAsWritten(e: Editor): (r: Editor)
    requires Valid(e)
    ensures Valid(r) && r.params.zoomTenths >= ZoomMin
    ensures r.params == e.params.(zoomTenths := ZoomOut(e.params.zoomTenths))
    ensures r.stack == e.stack[..e.index + 1] + [e.params] && r.index == e.index + 1
    ensures AllInBounds(e) ==> AllInBounds(r)
  {
    CommitThenSet(e, e.params.(zoomTenths := ZoomOut(e.params.zoomTenths)))
  }

  /**
   * The discrepancy: after loading (one commit of the starting parameters)
   * and two clockwise presses, one undo goes back to rotation 0 instead
   * of 90, because the stack holds [S0, S0, S90] rather than [S0, S90, S180].
   */
  lemma TwoRotationsThenUndoAsWritten(p: Snapshot)
    requires p.rotation == 0
    ensures var e := Undo(RotateAsWritten(RotateAsWritten(Commit(Start(p), p), Clockwise), Clockwise));
      e.params.rotation == 0 && e.index == 1
  {
    var e0 := Commit(Start(p), p);
    var e1 := RotateAsWritten(e0, Clockwise);
    assert e1.stack == [p, p];
    var e2 := RotateAsWritten(e1, Clockwise);
    assert e2.stack == [p, p, p.(rotation := 90)];
  }

  /** A button handler as intended: change the parameters, then record the changed ones. */
  function SetThenCommit(e: Editor, p: Snapshot): (r: Editor)
    requires Valid(e)
    ensures Valid(r) && Synced(r) && r.params == p
    ensures r.stack == e.stack[..e.index + 1] + [p] && r.index == e.index + 1
    ensures Synced(e) ==> CanUndo(r) && Undo(r).params == e.params && Undo(r).index == e.index
    ensures AllInBounds(e) && InBounds(p) ==> AllInBounds(r)
  {
    Commit(e.(params := p), p)
  }

  /** The rotate button with the changed rotation recorded. */
  function Rotate(e: Editor, d: Direction): (r: Editor)
    requires Valid(e)
    ensures Valid(r) && Synced(r) && r.params == e.params.(rotation := RotateStep(e.params.rotation, d))
    ensures r.stack == e.stack[..e.index + 1] + [r.params] && r.index == e.index + 1
    ensures Synced(e) ==> Undo(r).params == e.params
    ensures AllInBounds(e) ==> AllInBounds(r)
  {
    SetThenCommit(e, e.params.(rotation := RotateStep(e.params.rotation, d)))
  }

  /** The zoom-in button with the changed zoom recorded. */
  function ZoomInRecorded(e: Editor): (r: Editor)
    requires Valid(e)
    ensures Valid(r) && Synced(r) && r.params == e.params.(zoomTenths := ZoomIn(e.params.zoomTenths))
    ensures r.stack == e.stack[..e.index + 1] + [r.params] && r.index == e.index + 1
    ensures Synced(e) ==> Undo(r).params == e.params
    ensures AllInBounds(e) ==> AllInBounds(r)
  {
    SetThenCommit(e, e.params.(zoomTenths := ZoomIn(e.params.zoomTenths)))
  }

  /** The zoom-out button with the changed zoom recorded. */
  function ZoomOutRecorded(e: Editor): (r: Editor)
    requires Valid(e)
    ensures Valid(r) && Synced(r) && r.params == e.params.(zoomTenths := ZoomOut(e.params.zoomTenths))
    ensures r.stack == e.stack[..e.index + 1] + [r.params] && r.index == e.index + 1
    ensures Synced(e) ==> Undo(r).params == e.params
    ensures AllInBounds(e) ==> AllInBounds(r)
  {
    SetThenCommit(e, e.params.(zoomTenths := ZoomOut(e.params.zoomTenths)))
  }

  /** With the changed rotation recorded, two clockwise presses and one undo leave rotation 90. */
  lemma TwoRotationsThenUndo(p: Snapshot)
    requires p.rotation == 0
    ensures var e := Undo(Rotate(Rotate(Commit(Start(p), p), Clockwise), Clockwise));
      e.params.rotation == 90 && e.index == 1
  {
    var e0 := Commit(Start(p), p);
    assert Synced(e0);
    var e1 := Rotate(e0, Clockwise);
    assert e1.params.rotation == 90;
  }

  /**
   * The editor state of one session, updated in place by the handlers.
   * Its three fields are the live parameters, `historyStack` and `historyIndex`.
   */
  class EditorSession {
    var params: Snapshot
    var stack: seq<Snapshot>
    var index: int

    function Model(): Editor
      reads this
    {
      Editor(params, stack, index)
    }

    /** A fresh session: starting parameters, an empty stack and cursor -1. */
    constructor (p: Snapshot)
      ensures Model() == Start(p)
    {
      params := p;
      stack := [];
      index := -1;
    }

    /** A parameter setter with no commit (a slider being dragged). */
    method SetParams(p: Snapshot)
      modifies this
      ensures Model() == old(Model()).(params := p)
    {
      params := p;
    }

    /** `saveState`, given the snapshot its closure captured. */
    method SaveState(s: Snapshot)
      requires Valid(Model())
      modifies this
      ensures Model() == Commit(old(Model()), s)
    {
      var newStack := stack[..index + 1];
      newStack := newStack + [s];
      stack := newStack;
      index := |newStack| - 1;
    }

    /** `handleUndo`. */
    method HandleUndo()
      requires Valid(Model())
      modifies this
      ensures Model() == Undo(old(Model()))
    {
      if index > 0 {
        var newIndex := index - 1;
        params := stack[newIndex];
        index := newIndex;
      }
    }

    /** `handleRedo`. */
    method HandleRedo()
      requires Valid(Model())
      modifies this
      ensures Model() == Redo(old(Model()))
    {
      if index < |stack| - 1 {
        var newIndex := index + 1;
        params := stack[newIndex];
        index := newIndex;
      }
    }

    /** `handleRotate`: `saveState` runs with the parameters from before the change. */
    method HandleRotate(d: Direction)
      requires Valid(Model())
      modifies this
      ensures Model() == RotateAsWritten(old(Model()), d)
    {
      SaveState(params);
      params := params.(rotation := RotateStep(params.rotation, d));
    }

    /** The zoom-in button. */
    method HandleZoomIn()
      requires Valid(Model())
      modifies this
      ensures Model() == ZoomInAsWritten(old(Model()))
    {
      SaveState(params);
      params := params.(zoomTenths := ZoomIn(params.zoomTenths));
    }

    /** The zoom-out button. */
    method HandleZoomOut()
      requires Valid(Model())
      modifies this
      ensures Model() == ZoomOutAsWritten(old(Model()))
    {
      SaveState(params);
      params := params.(zoomTenths := ZoomOut(params.zoomTenths));
    }

    /** The rotate button with the change recorded: update the rotation, then save the updated parameters. */
    method RotateAndRecord(d: Direction)
      requires Valid(Model())
      modifies this
      ensures Model() == Rotate(old(Model()), d)
    {
      params := params.(rotation := RotateStep(params.rotation, d));
      SaveState(params);
    }

    /** The zoom-in button with the change recorded. */
    method ZoomInAndRecord()
      requires Valid(Model())
      modifies this
      ensures Model() == ZoomInRecorded(old(Model()))
    {
      params := params.(zoomTenths := ZoomIn(params.zoomTenths));
      SaveState(params);
    }

    /** The zoom-out button with the change recorded. */
    method ZoomOutAndRecord()
      requires Valid(Model())
      modifies this
      ensures Model() == ZoomOutRecorded(old(Model()))
    {
      params := params.(zoomTenths := ZoomOut(params.zoomTenths));
      SaveState(params);
    }
  }
}
