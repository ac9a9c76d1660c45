/**
 * The drawing-state machine of the Canvas component, as values: the visible
 * strokes, the snapshot log with its cursor, the drawing flag, the current
 * tool and the text label. Each event handler is one transition function.
 */
module Drawing {
  import opened Strokes
  import TextInput

  /** The component's state (the text label's position starts at (100, 100)). */
  datatype Editor = Editor(
    tool: Tool,
    lines: seq<LineData>,
    text: string,
    textX: int,
    textY: int,
    isDrawing: bool,
    history: seq<seq<LineData>>,
    historyStep: int)

  /**
   * What every handler keeps:
   * - the cursor is -1 (nothing recorded yet) or the index of a snapshot;
   * - before the first snapshot nothing has been drawn and no stroke is open;
   * - the first snapshot is always the empty canvas, since it is taken at the
   *   first pointer-down and never cut off afterwards;
   * - every stroke, visible or recorded, holds whole (x, y) pairs.
   */
  predicate Valid(s: Editor)
  {
    && -1 <= s.historyStep < |s.history|
    && (s.historyStep == -1 <==> s.history == [])
    && (s.history == [] ==> s.lines == [] && !s.isDrawing)
    && (s.history != [] ==> s.history[0] == [])
    && AllWellFormed(s.lines)
    && SnapshotsWellFormed(s.history)
  }

  predicate SnapshotsWellFormed(history: seq<seq<LineData>>)
  {
    forall k :: 0 <= k < |history| ==> AllWellFormed(history[k])
  }

  /** Cutting the log and pushing well-formed strokes keeps every snapshot well formed. */
  lemma PushSnapshotWellFormed(history: seq<seq<LineData>>, n: nat, lines: seq<LineData>)
    requires n <= |history|
    ensures SnapshotsWellFormed(history) && AllWellFormed(lines) ==> SnapshotsWellFormed(history[..n] + [lines])
  {
    var h := history[..n] + [lines];
    if SnapshotsWellFormed(history) && AllWellFormed(lines) {
      forall k | 0 <= k < |h| ensures AllWellFormed(h[k]) {
        if k < n {
          assert h[k] == history[k];
        }
      }
    }
  }

  /** The state the component mounts with. */
  function Init(): (s: Editor)
    ensures Valid(s)
    ensures s.lines == [] && s.history == [] && s.historyStep == -1 && !s.isDrawing
    ensures s.tool == Pen && s.text == "" && s.textX == 100 && s.textY == 100
  {
    Editor(Pen, [], "", 100, 100, false, [], -1)
  }

  /**
   * saveToHistory: cut the log after the cursor, append a copy of the visible
   * strokes and move the cursor onto that copy.
   */
  function SaveToHistory(s: Editor): (r: Editor)
    requires -1 <= s.historyStep < |s.history|
    ensures |r.history| == s.historyStep + 2
    ensures r.historyStep == s.historyStep + 1 == |r.history| - 1
    ensures r.history[..r.historyStep] == s.history[..s.historyStep + 1]
    ensures r.history[r.historyStep] == s.lines
    ensures r == s.(history := r.history, historyStep := r.historyStep)
    ensures SnapshotsWellFormed(s.history) && AllWellFormed(s.lines) ==> SnapshotsWellFormed(r.history)
  {
    var kept := s.history[..s.historyStep + 1];
    var history := kept + [s.lines];
    PushSnapshotWellFormed(s.history, s.historyStep + 1, s.lines);
    s.(history := history, historyStep := s.historyStep + 1)
  }

  /** handleUndo: step the cursor back and show that snapshot, unless the cursor is at 0 or -1. */
  function Undo(s: Editor): (r: Editor)
    requires Valid(s)
    ensures Valid(r)
    ensures r.history == s.history
    ensures s.historyStep > 0 ==> r.historyStep == s.historyStep - 1 && r.lines == s.history[r.historyStep]
    ensures s.historyStep <= 0 ==> r == s
    ensures r == s.(lines := r.lines, historyStep := r.historyStep)
  {
    if s.historyStep > 0 then
      var step := s.historyStep - 1;
      s.(historyStep := step, lines := s.history[step])
    else s
  }

  /** handleRedo: step the cursor forward and show that snapshot, unless it is on the last one. */
  function Redo(s: Editor): (r: Editor)
    requires Valid(s)
    ensures Valid(r)
    ensures r.history == s.history
    ensures s.historyStep < |s.history| - 1 ==> r.historyStep == s.historyStep + 1 && r.lines == s.history[r.historyStep]
    ensures s.historyStep == |s.history| - 1 ==> r == s
    ensures r == s.(lines := r.lines, historyStep := r.historyStep)
  {
    if s.historyStep < |s.history| - 1 then
      var step := s.historyStep + 1;
      s.(historyStep := step, lines := s.history[step])
    else s
  }

  /**
   * handleMouseDown: raise the drawing flag, record the strokes as they were
   * before this one, and append a stroke of the current tool (whatever it is)
   * holding the single pointer position.
   */
  function MouseDown(s: Editor, x: int, y: int): (r: Editor)
    requires Valid(s)
    ensures Valid(r)
    ensures r.isDrawing
    ensures r.lines == s.lines + [LineData(s.tool, [x, y])]
    ensures r.history == s.history[..s.historyStep + 1] + [s.lines]
    ensures r.historyStep == s.historyStep + 1 == |r.history| - 1
    ensures r.tool == s.tool && r.text == s.text && r.textX == s.textX && r.textY == s.textY
  {
    var drawing := s.(isDrawing := true);
    var saved := SaveToHistory(drawing);
    var line := StartStroke(s.tool, x, y);
    assert AllWellFormed(s.lines + [line]) by {
      assert forall i :: 0 <= i < |s.lines| ==> (s.lines + [line])[i] == s.lines[i];
    }
    saved.(lines := s.lines + [line])
  }

  /**
   * A pointer-move with the flag raised reads the last stroke's points; with
   * no stroke on the canvas that read fails with a TypeError and the handler
   * stops before changing anything. This happens when the pointer was
   * released off the stage and undo went back to the empty first snapshot.
   */
  predicate MoveThrows(s: Editor)
    ensures MoveThrows(s) && Valid(s) ==> s.history != []
  {
    s.isDrawing && s.lines == []
  }

  /** handleMouseMove: with the flag raised, append the pointer position to the last stroke. */
  function MouseMove(s: Editor, x: int, y: int): (r: Editor)
    requires Valid(s)
    ensures Valid(r)
    ensures !s.isDrawing || MoveThrows(s) ==> r == s
    ensures s.isDrawing && !MoveThrows(s) ==>
      && |r.lines| == |s.lines|
      && r.lines[..|r.lines| - 1] == s.lines[..|s.lines| - 1]
      && Last(r.lines) == LineData(Last(s.lines).tool, Last(s.lines).points + [x, y])
    ensures r == s.(lines := r.lines)
  {
    if !s.isDrawing || s.lines == [] then s
    else s.(lines := ExtendLast(s.lines, x, y))
  }

  /** handleMouseUp: lower the drawing flag and nothing else. */
  function MouseUp(s: Editor): (r: Editor)
    requires Valid(s)
    ensures Valid(r)
    ensures !r.isDrawing
    ensures r == s.(isDrawing := false)
  {
    s.(isDrawing := false)
  }

  /** The pen branch of a click reads the last stroke too, and fails the same way on an empty canvas. */
  predicate ClickThrows(s: Editor)
    ensures ClickThrows(s) ==> MoveThrows(s)
    ensures ClickThrows(s) <==> s.tool == Pen && MoveThrows(s)
  {
    s.tool == Pen && s.isDrawing && s.lines == []
  }

  /**
   * handleCanvasClick: with the text tool, clear the label and move it to the
   * click; otherwise, while a pen stroke is open, append the click position to it.
   */
  function CanvasClick(s: Editor, x: int, y: int): (r: Editor)
    requires Valid(s)
    ensures Valid(r)
    ensures s.tool == Text ==> r == s.(text := "", textX := x, textY := y)
    ensures s.tool == Pen && s.isDrawing && !ClickThrows(s) ==> r == s.(lines := ExtendLast(s.lines, x, y))
    ensures s.tool == Eraser || (s.tool == Pen && !s.isDrawing) || ClickThrows(s) ==> r == s
  {
    if s.tool == Text then
      s.(text := "", textX := x, textY := y)
    else if s.isDrawing && s.tool == Pen && s.lines != [] then
      s.(lines := ExtendLast(s.lines, x, y))
    else s
  }

  /** handleKeyDown: the text editor; no other part of the state changes. */
  function KeyDown(s: Editor, key: string): (r: Editor)
    requires Valid(s)
    ensures Valid(r)
    ensures r.text == if s.tool == Text && TextInput.MatchesKeyPattern(key) then s.text + key else s.text
    ensures r == if s.tool == Text then s.(text := s.text + TextInput.Accepted(key)) else s
  {
    s.(text := TextInput.NextText(s.tool, s.text, key))
  }

  /** The tool selector's change handler. */
  function SelectTool(s: Editor, tool: Tool): (r: Editor)
    requires Valid(s)
    ensures Valid(r)
    ensures r.tool == tool && r == s.(tool := tool)
  {
    s.(tool := tool)
  }

  /** The events the handlers respond to; positions and key names come with them. */
  datatype Event =
    | PointerDown(x: int, y: int)
    | PointerMove(x: int, y: int)
    | PointerUp
    | UndoClick
    | RedoClick
    | Click(x: int, y: int)
    | Key(key: string)
    | Select(tool: Tool)

  /** One event, dispatched to its handler. */
  function Step(s: Editor, e: Event): (r: Editor)
    requires Valid(s)
    ensures Valid(r)
  {
    match e
    case PointerDown(x, y) => MouseDown(s, x, y)
    case PointerMove(x, y) => MouseMove(s, x, y)
    case PointerUp => MouseUp(s)
    case UndoClick => Undo(s)
    case RedoClick => Redo(s)
    case Click(x, y) => CanvasClick(s, x, y)
    case Key(key) => KeyDown(s, key)
    case Select(tool) => SelectTool(s, tool)
  }

  /** A run of events, handled one after another, each seeing the state the previous one left. */
  function Run(s: Editor, events: seq<Event>): (r: Editor)
    requires Valid(s)
    ensures Valid(r)
    decreases |events|
  {
    if events == [] then s else Run(Step(s, events[0]), events[1..])
  }
}
