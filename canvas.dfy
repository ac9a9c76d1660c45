/**
 * The Canvas component as an object whose fields its event handlers update
 * in place. Each handler is proved to leave the state the corresponding
 * transition of module Drawing describes, and to keep Drawing.Valid.
 */
module CanvasComponent {
  import opened Strokes
  import TextInput
  import Drawing

  class Canvas {
    var tool: Tool
    var lines: seq<LineData>
    var text: string
    var textX: int
    var textY: int
    var isDrawing: bool
    var history: seq<seq<LineData>>
    var historyStep: int

    /** The fields, as one value of the state machine. */
    function State(): Drawing.Editor
      reads this
    {
      Drawing.Editor(tool, lines, text, textX, textY, isDrawing, history, historyStep)
    }

    predicate Valid()
      reads this
    {
      Drawing.Valid(State())
    }

    /** Mounting: pen selected, nothing drawn, nothing recorded, cursor at -1. */
    constructor ()
      ensures Valid()
      ensures State() == Drawing.Init()
    {
      tool := Pen;
      lines := [];
      text := "";
      textX, textY := 100, 100;
      isDrawing := false;
      history := [];
      historyStep := -1;
    }

    /** saveToHistory: drop the entries after the cursor, push a copy of the strokes, advance the cursor. */
    method SaveToHistory()
      requires -1 <= historyStep < |history|
      modifies this`history, this`historyStep
      ensures State() == Drawing.SaveToHistory(old(State()))
      ensures historyStep == |history| - 1
    {
      history := history[..historyStep + 1];
      history := history + [lines];
      historyStep := historyStep + 1;
    }

    /** handleUndo. */
    method HandleUndo()
      requires Valid()
      modifies this`historyStep, this`lines
      ensures Valid()
      ensures State() == Drawing.Undo(old(State()))
    {
      if historyStep > 0 {
        historyStep := historyStep - 1;
        lines := history[historyStep];
      }
    }

    /** handleRedo. */
    method HandleRedo()
      requires Valid()
      modifies this`historyStep, this`lines
      ensures Valid()
      ensures State() == Drawing.Redo(old(State()))
    {
      if historyStep < |history| - 1 {
        historyStep := historyStep + 1;
        lines := history[historyStep];
      }
    }

    /** handleMouseDown, with the pointer position (x, y) read from the stage. */
    method HandleMouseDown(x: int, y: int)
      requires Valid()
      modifies this`isDrawing, this`history, this`historyStep, this`lines
      ensures Valid()
      ensures State() == Drawing.MouseDown(old(State()), x, y)
    {
      ghost var before := State();
      isDrawing := true;
      SaveToHistory();
      assert State() == Drawing.SaveToHistory(before.(isDrawing := true));
      lines := lines + [LineData(tool, [x, y])];
      assert State() == Drawing.MouseDown(before, x, y);
    }

    /**
     * handleMouseMove, with the pointer position (x, y) read from the stage.
     * `threw` reports the TypeError raised when the flag is up and no stroke
     * is on the canvas; the state is then left as it was.
     */
    method HandleMouseMove(x: int, y: int) returns (threw: bool)
      requires Valid()
      modifies this`lines
      ensures Valid()
      ensures threw == Drawing.MoveThrows(old(State()))
      ensures State() == Drawing.MouseMove(old(State()), x, y)
    {
      threw := false;
      if !isDrawing {
        return;
      }
      if |lines| == 0 {
        threw := true;
        return;
      }
      lines := ExtendLast(lines, x, y);
    }

    /** handleMouseUp. */
    method HandleMouseUp()
      requires Valid()
      modifies this`isDrawing
      ensures Valid()
      ensures State() == Drawing.MouseUp(old(State()))
    {
      isDrawing := false;
    }

    /**
     * handleCanvasClick, with the click position (x, y) relative to the
     * canvas. `threw` reports the TypeError of the pen branch on an empty canvas.
     */
    method HandleCanvasClick(x: int, y: int) returns (threw: bool)
      requires Valid()
      modifies this`text, this`textX, this`textY, this`lines
      ensures Valid()
      ensures threw == Drawing.ClickThrows(old(State()))
      ensures State() == Drawing.CanvasClick(old(State()), x, y)
    {
      threw := false;
      if tool == Text {
        text := "";
        textX, textY := x, y;
      } else if isDrawing && tool == Pen {
        if |lines| == 0 {
          threw := true;
          return;
        }
        lines := ExtendLast(lines, x, y);
      }
    }

    /** The key-down listener, with the key name the browser reports. */
    method HandleKeyDown(key: string)
      requires Valid()
      modifies this`text
      ensures Valid()
      ensures State() == Drawing.KeyDown(old(State()), key)
    {
      if tool == Text {
        if TextInput.MatchesKeyPattern(key) {
          text := text + key;
        } else if key == TextInput.Backspace {
          text := TextInput.DropLast(text);
        }
      }
    }

    /** The tool selector's change handler. */
    method SelectTool(t: Tool)
      requires Valid()
      modifies this`tool
      ensures Valid()
      ensures State() == Drawing.SelectTool(old(State()), t)
    {
      tool := t;
    }
  }
}
