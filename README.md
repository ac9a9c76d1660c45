# Canvas drawing state, in Dafny

This project models the drawing-state machine of the `Canvas` React component
of a small browser drawing app (react-konva). The component keeps:

- the visible strokes `lines`;
- a snapshot log `history` with its cursor `historyStep`;
- the `isDrawing` flag;
- the current `tool` (pen, eraser or text);
- the text label `text` and its position.

Its event handlers change that state: `saveToHistory`, `handleUndo`,
`handleRedo`, `handleMouseDown`, `handleMouseMove`, `handleMouseUp`,
`handleCanvasClick`, the key-down text editor and the tool selector.

Files:

- `strokes.dfy` (module `Strokes`): the `Tool` and `LineData` types, and the
  stroke-extension step shared by pointer-move and click.
- `text_input.dfy` (module `TextInput`): the key-name pattern
  `/^[a-zA-Z0-9\s]+$/` and the label updaters.
- `drawing.dfy` (module `Drawing`): the state as a value (`Editor`), its
  invariant `Valid`, and one transition function per handler. `Step`
  dispatches an `Event` to its handler and `Run` handles a sequence of events.
- `properties.dfy` (module `DrawingProperties`): what whole gestures, undo/redo
  sequences and key sequences do.
- `canvas.dfy` (module `CanvasComponent`): class `Canvas` with the component's
  fields and one method per handler. Each method updates the fields in place
  and is proved to leave exactly the state the matching `Drawing` function
  gives; each handler is also proved to keep `Valid`.

Pointer coordinates and key names are method parameters. Coordinates are
integers.

`Drawing.Valid` holds in every reachable state:

- the cursor is `-1` exactly when the log is empty, and otherwise indexes a snapshot;
- before the first snapshot, nothing is drawn and no stroke is open;
- the first snapshot is always the empty canvas;
- every stroke, visible or recorded, holds whole (x, y) pairs.

The code behaves as follows, and the lemmas listed prove it:

- The first stroke cannot be undone. Undo needs `historyStep > 0`, and the
  first pointer-down moves the cursor from -1 to 0
  (`FirstStrokeCannotBeUndone`, `UndoAfterGestures`).
- The snapshot is taken before each stroke. So an undo right after a stroke
  does not go back to the canvas as it was before that stroke: it shows the
  snapshot the cursor was on before the pointer-down, or does nothing if the
  log was empty (`UndoRedoAfterMouseDown`). After two or more strokes in a
  row on a fresh canvas, that removes the two newest strokes
  (`UndoAfterGestures`).
- The newest stroke is in no snapshot, so redo never brings it back
  (`RedoNeverRestoresNewestStroke`). Redo right after a pointer-down does
  nothing (`UndoRedoAfterMouseDown`).
- The key name `"Backspace"` is made of letters only, so it matches the
  pattern. The label then gains the word "Backspace" instead of losing a
  character, and the deletion branch is never taken (`BackspaceAppendsItsName`,
  `TypeHiThenBackspace`).
- A pointer-down creates a stroke whatever the tool, text tool included
  (`Drawing.MouseDown`).

## Model

| member | source | states |
|---|---|---|
| Strokes.StartStroke | src/components/Canvas.tsx:67 | the new stroke is whole (x, y) pairs |
| Strokes.ExtendLast | src/components/Canvas.tsx:76-78 | the stroke count is unchanged and every stroke but the last is kept; the last keeps its tool and gains exactly [x, y]; all strokes stay whole (x, y) pairs |
| TextInput.MatchesKeyPattern | src/components/Canvas.tsx:89-90 | the anchored pattern /^[a-zA-Z0-9\s]+$/ accepts exactly the non-empty key names whose every character is an ASCII letter, an ASCII digit or a JavaScript whitespace character (IsKeyChar, IsJsWhitespace) |
| TextInput.DropLast | src/components/Canvas.tsx:93 | `slice(0, -1)`: the result plus the old last character is the input; empty stays empty |
| TextInput.BackspaceMatchesKeyPattern | src/components/Canvas.tsx:89-90 | the key name "Backspace" matches the pattern /^[a-zA-Z0-9\s]+$/ |
| TextInput.NextText | src/components/Canvas.tsx:88-95 | with the text tool, a key matching the pattern is appended whole; every other key, and every key under another tool, leaves the text unchanged |
| TextInput.BackspaceAppendsItsName | src/components/Canvas.tsx:89-94 | backspace with the text tool appends "Backspace" and does not delete the last character |
| Drawing.Init | src/components/Canvas.tsx:11-22 | the mounted state is valid: pen selected, no strokes, empty label at (100, 100), an empty log, cursor -1, flag down |
| Drawing.SaveToHistory | src/components/Canvas.tsx:43-47 | the log is cut to its first historyStep+1 entries and the current strokes are appended; the cursor goes up by one and ends on the last entry; nothing else changes |
| Drawing.Undo | src/components/Canvas.tsx:49-54 | keeps Valid and never changes the log; with the cursor above 0 it moves back one and shows that snapshot; otherwise nothing changes |
| Drawing.Redo | src/components/Canvas.tsx:56-61 | keeps Valid and never changes the log; below the last index it moves the cursor forward one and shows that snapshot; on the last entry nothing changes |
| Drawing.MouseDown | src/components/Canvas.tsx:63-68 | keeps Valid; raises the flag; records the pre-stroke strokes after the cut log; appends exactly one stroke of the current tool with the pointer position |
| Drawing.MouseMove | src/components/Canvas.tsx:70-80 | keeps Valid; with the flag down, or with no stroke to read (TypeError), nothing changes; otherwise the last stroke keeps its tool and gains [x, y], other strokes, the count and the log are unchanged |
| Drawing.MoveThrows | src/components/Canvas.tsx:71-77 | the pointer-move TypeError (flag raised, no stroke to read) can only happen once something has been recorded |
| Drawing.MouseUp | src/components/Canvas.tsx:82-84 | keeps Valid; lowers the flag and changes nothing else |
| Drawing.ClickThrows | src/components/Canvas.tsx:34-37 | the pen-click TypeError happens exactly when the pen is selected and the pointer-move TypeError condition holds |
| Drawing.CanvasClick | src/components/Canvas.tsx:24-41 | keeps Valid; with the text tool, empties the label and moves it to the click; with the pen while drawing, extends the last stroke; otherwise nothing changes |
| Drawing.KeyDown | src/components/Canvas.tsx:87-96 | keeps Valid; only the text changes: a matching key is appended under the text tool, nothing otherwise |
| Drawing.SelectTool | src/components/Canvas.tsx:145-150 | keeps Valid; sets the tool and nothing else |
| Drawing.Step | src/components/Canvas.tsx:106-113 | every handler keeps Valid |
| Drawing.Run | src/components/Canvas.tsx:43-96 | any sequence of handled events keeps Valid: the cursor stays between -1 and the last index of the log, and is -1 exactly when the log is empty |
| DrawingProperties.RunMoves | src/components/Canvas.tsx:70-80 | while a stroke is open, pointer-moves append their coordinates in order to the last stroke and change nothing else |
| DrawingProperties.RunGesture | src/components/Canvas.tsx:63-84 | a down/moves/up gesture appends exactly one stroke holding all its positions, records one snapshot of the strokes before it, moves the cursor to the end and lowers the flag |
| DrawingProperties.RunGestures | src/components/Canvas.tsx:43-84 | N gestures add N strokes, move the cursor N on, keep the log up to the old cursor and add one snapshot per gesture, holding the strokes present when it began |
| DrawingProperties.GesturesFromMount | src/components/Canvas.tsx:12-68 | from mount, N gestures leave N strokes and N snapshots; snapshot k holds the first k strokes; the cursor is N-1 |
| DrawingProperties.UndoAfterGestures | src/components/Canvas.tsx:49-54 | after one gesture undo does nothing; after two or more it removes the two newest strokes |
| DrawingProperties.RedoNeverRestoresNewestStroke | src/components/Canvas.tsx:56-61 | after gestures and an undo, redo shows all strokes but the newest, and a second redo does nothing |
| DrawingProperties.UndoRedoAfterMouseDown | src/components/Canvas.tsx:49-67 | right after a pointer-down, undo does nothing when the log was empty and otherwise shows the snapshot the cursor was on before; redo does nothing |
| DrawingProperties.FirstStrokeCannotBeUndone | src/components/Canvas.tsx:49-53 | undo after the first pointer-down on a fresh canvas keeps that stroke |
| DrawingProperties.ThrowsAfterUndoWhileDrawing | src/components/Canvas.tsx:34-84 | on a fresh canvas, stroke, release, stroke and undo before release: the next pointer-move and pen click both hit the TypeError and change nothing |
| DrawingProperties.UndoThenRedo | src/components/Canvas.tsx:49-61 | undo then redo restores the cursor and the log and shows the snapshot at the cursor |
| DrawingProperties.RedoThenUndo | src/components/Canvas.tsx:49-61 | redo then undo restores the cursor and the log and shows the snapshot at the cursor |
| DrawingProperties.OneGestureFromMount | src/components/Canvas.tsx:63-84 | one gesture on a fresh canvas leaves exactly its stroke, and undo does not remove it |
| DrawingProperties.DragScenario | src/components/Canvas.tsx:63-84 | a drag (0,0) to (10,10) to (20,5) on a fresh canvas leaves one pen stroke [0,0,10,10,20,5], and undo keeps it |
| DrawingProperties.RunKeys | src/components/Canvas.tsx:87-96 | with the text tool, a run of key-downs appends every matching key name, whole and in order; with another tool nothing changes |
| DrawingProperties.TypeHiThenBackspace | src/components/Canvas.tsx:89-93 | typing H, i, Backspace with the text tool appends "HiBackspace" |
| CanvasComponent.Canvas.constructor | src/components/Canvas.tsx:11-22 | the fields start as the valid mounted state |
| CanvasComponent.Canvas.SaveToHistory | src/components/Canvas.tsx:43-47 | updates only history and historyStep, as Drawing.SaveToHistory; the cursor ends on the last entry |
| CanvasComponent.Canvas.HandleUndo | src/components/Canvas.tsx:49-54 | updates only historyStep and lines, as Drawing.Undo, and keeps Valid |
| CanvasComponent.Canvas.HandleRedo | src/components/Canvas.tsx:56-61 | updates only historyStep and lines, as Drawing.Redo, and keeps Valid |
| CanvasComponent.Canvas.HandleMouseDown | src/components/Canvas.tsx:63-68 | updates the flag, the log, the cursor and the strokes as Drawing.MouseDown, and keeps Valid |
| CanvasComponent.Canvas.HandleMouseMove | src/components/Canvas.tsx:70-80 | updates only lines, as Drawing.MouseMove; reports the TypeError case; keeps Valid |
| CanvasComponent.Canvas.HandleMouseUp | src/components/Canvas.tsx:82-84 | updates only the flag, as Drawing.MouseUp |
| CanvasComponent.Canvas.HandleCanvasClick | src/components/Canvas.tsx:24-41 | updates the label or the strokes as Drawing.CanvasClick; reports the TypeError case; keeps Valid |
| CanvasComponent.Canvas.HandleKeyDown | src/components/Canvas.tsx:87-96 | updates only text, as Drawing.KeyDown |
| CanvasComponent.Canvas.SelectTool | src/components/Canvas.tsx:145-150 | updates only tool, as Drawing.SelectTool |

## Left out

- Rendering (the JSX, the `Stage`/`Layer`/`Line`/`Text` props, the buttons) and the eraser's `destination-out` composite operation: presentation over the rendering library.
- Reading pointer positions (`getStage().getPointerPosition()`, `getBoundingClientRect()` and `clientX - left`): the positions are integer parameters. Their floating-point values are not modelled.
- React timing: `setState` batching, stale closures in handlers, `useRef`/`useEffect` plumbing and registering the key listener on `window`. Each handler sees the latest state.
- Aliasing: strokes are values. In the code, the snapshots are shallow copies, so they share stroke objects with `lines`. A pointer-move, and a pen click while drawing (`handleCanvasClick`'s `lastLine.points = ...`), only extend the newest stroke, which is in no snapshot, unless the pointer was released off the stage and an undo or redo ran in between. In that case the code would also extend the stroke inside the snapshot. The model does not capture this.
- The TypeError that a pointer-move or a pen click raises with the flag up and no stroke on the canvas: it is modelled as "nothing changes" plus a `threw` result. The browser's error report is not modelled.
- The text label's drag handlers (`isDragging`, drag-end position): they only copy positions the renderer reports.
- TextInput.IsJsWhitespace: JavaScript strings are UTF-16, and Dafny characters are Unicode scalar values. This makes no difference to the pattern test, because no astral character is a letter, digit or space of the class.
- TextInput.DropLast: removes one Unicode character, where `slice(0, -1)` removes one UTF-16 code unit. The branch that uses it is never taken.
- src/components/ToolBar.tsx: button markup wired to callbacks it receives as props. It has no logic of its own.
