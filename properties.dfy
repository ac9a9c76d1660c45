/**
 * What the handlers of the Canvas component do over whole gestures and key
 * sequences, and how undo and redo behave around a pointer-down.
 */
module DrawingProperties {
  import opened Strokes
  import TextInput
  import opened Drawing

  /** One gesture: pointer-down at `start`, pointer-moves through `moves`, pointer-up. */
  datatype Gesture = Gesture(start: Point, moves: seq<Point>)

  function MoveEvents(ms: seq<Point>): seq<Event>
  {
    if ms == [] then [] else [PointerMove(ms[0].x, ms[0].y)] + MoveEvents(ms[1..])
  }

  function GestureEvents(g: Gesture): seq<Event>
  {
    [PointerDown(g.start.x, g.start.y)] + MoveEvents(g.moves) + [PointerUp]
  }

  /** The events of several gestures, one after another. */
  function AllGestureEvents(gs: seq<Gesture>): seq<Event>
  {
    if gs == [] then [] else AllGestureEvents(gs[..|gs| - 1]) + GestureEvents(gs[|gs| - 1])
  }

  /** The stroke a gesture draws with the given tool: the start position, then every move. */
  function GestureStroke(tool: Tool, g: Gesture): LineData
  {
    LineData(tool, [g.start.x, g.start.y] + Coordinates(g.moves))
  }

  /** The strokes several gestures draw, oldest first. */
  function GestureStrokes(tool: Tool, gs: seq<Gesture>): (lines: seq<LineData>)
    ensures |lines| == |gs|
  {
    if gs == [] then [] else GestureStrokes(tool, gs[..|gs| - 1]) + [GestureStroke(tool, gs[|gs| - 1])]
  }

  lemma {:induction false} GestureStrokesPrefix(tool: Tool, gs: seq<Gesture>, k: nat)
    requires k <= |gs|
    ensures GestureStrokes(tool, gs[..k]) == GestureStrokes(tool, gs)[..k]
  {
    if k < |gs| {
      var init := gs[..|gs| - 1];
      assert init[..k] == gs[..k];
      GestureStrokesPrefix(tool, init, k);
    } else {
      assert gs[..k] == gs;
    }
  }

  /** Handling a non-empty run is handling its first event, then the rest. */
  lemma RunFirst(s: Editor, events: seq<Event>)
    requires Valid(s) && events != []
    ensures Run(s, events) == Run(Step(s, events[0]), events[1..])
  {
  }

  /** Handling a + b is handling a, then b from where a left off. */
  lemma {:induction false} RunAppend(s: Editor, a: seq<Event>, b: seq<Event>)
    requires Valid(s)
    ensures Run(s, a + b) == Run(Run(s, a), b)
    decreases |a|
  {
    if a == [] {
      assert a + b == b;
    } else {
      assert (a + b)[0] == a[0];
      assert (a + b)[1..] == a[1..] + b;
      RunAppend(Step(s, a[0]), a[1..], b);
    }
  }

  /** While a stroke is open, pointer-moves append their coordinates to it and change nothing else. */
  lemma {:induction false} RunMoves(s: Editor, ms: seq<Point>)
    requires Valid(s) && s.isDrawing && s.lines != []
    ensures Run(s, MoveEvents(ms)) ==
      s.(lines := s.lines[..|s.lines| - 1] + [LineData(Last(s.lines).tool, Last(s.lines).points + Coordinates(ms))])
    decreases |ms|
  {
    var n := |s.lines|;
    if ms == [] {
      assert Last(s.lines).points + Coordinates(ms) == Last(s.lines).points;
      assert s.lines == s.lines[..n - 1] + [Last(s.lines)];
    } else {
      var t := MouseMove(s, ms[0].x, ms[0].y);
      RunFirstMove(s, ms);
      RunMoves(t, ms[1..]);
      assert t.lines[..n - 1] == s.lines[..n - 1];
      CoordinatesStep(Last(s.lines).points, ms);
    }
  }

  lemma RunFirstMove(s: Editor, ms: seq<Point>)
    requires Valid(s) && ms != []
    ensures Run(s, MoveEvents(ms)) == Run(MouseMove(s, ms[0].x, ms[0].y), MoveEvents(ms[1..]))
  {
    RunFirst(s, MoveEvents(ms));
    assert MoveEvents(ms)[0] == PointerMove(ms[0].x, ms[0].y) && MoveEvents(ms)[1..] == MoveEvents(ms[1..]);
  }

  lemma CoordinatesStep(points: seq<int>, ms: seq<Point>)
    requires ms != []
    ensures (points + [ms[0].x, ms[0].y]) + Coordinates(ms[1..]) == points + Coordinates(ms)
  {
    assert Coordinates(ms) == [ms[0].x, ms[0].y] + Coordinates(ms[1..]);
  }

  /**
   * A whole gesture records one snapshot (the strokes before it), appends
   * exactly one stroke of the current tool holding all its positions, and
   * ends with the drawing flag lowered.
   */
  lemma RunGesture(s: Editor, g: Gesture)
    requires Valid(s)
    ensures var r := Run(s, GestureEvents(g));
      && r.lines == s.lines + [GestureStroke(s.tool, g)]
      && r.history == s.history[..s.historyStep + 1] + [s.lines]
      && r.historyStep == s.historyStep + 1
      && !r.isDrawing
      && r == s.(lines := r.lines, history := r.history, historyStep := r.historyStep, isDrawing := false)
  {
    var down := [PointerDown(g.start.x, g.start.y)];
    var moves := MoveEvents(g.moves);
    var up := [PointerUp];
    RunAppend(s, down + moves, up);
    RunAppend(s, down, moves);
    var d := MouseDown(s, g.start.x, g.start.y);
    assert Run(s, down) == d;
    RunMoves(d, g.moves);
    assert d.lines[..|d.lines| - 1] == s.lines;
    var m := Run(d, moves);
    assert Run(m, up) == MouseUp(m);
  }

  /**
   * What N gestures from `s` leave behind in `r`: N more strokes of the
   * current tool, the cursor N further on and on the last snapshot, the log
   * kept up to the old cursor, and after it one snapshot per gesture holding
   * the strokes present when that gesture began.
   */
  ghost predicate Drew(s: Editor, gs: seq<Gesture>, r: Editor)
  {
    && Valid(s)
    && r.lines == s.lines + GestureStrokes(s.tool, gs)
    && r.historyStep == s.historyStep + |gs|
    && s.historyStep + 1 <= |r.history|
    && (gs != [] ==> |r.history| == r.historyStep + 1 && !r.isDrawing)
    && r.history[..s.historyStep + 1] == s.history[..s.historyStep + 1]
    && (forall k :: 0 <= k < |gs| ==> r.history[s.historyStep + 1 + k] == s.lines + GestureStrokes(s.tool, gs[..k]))
    && r.tool == s.tool && r.text == s.text
  }

  /** One more gesture extends what the earlier ones drew by one stroke and one snapshot. */
  lemma DrewOneMore(s: Editor, init: seq<Gesture>, g: Gesture, m: Editor, r: Editor)
    requires Valid(m) && Drew(s, init, m)
    requires r.lines == m.lines + [GestureStroke(m.tool, g)]
    requires r.history == m.history[..m.historyStep + 1] + [m.lines]
    requires r.historyStep == m.historyStep + 1 && !r.isDrawing && r.tool == m.tool && r.text == m.text
    ensures Drew(s, init + [g], r)
  {
    var gs := init + [g];
    assert gs[..|gs| - 1] == init;
    assert GestureStrokes(s.tool, gs) == GestureStrokes(s.tool, init) + [GestureStroke(s.tool, g)];
    forall k | 0 <= k < |gs|
      ensures r.history[s.historyStep + 1 + k] == s.lines + GestureStrokes(s.tool, gs[..k])
    {
      if k < |init| {
        assert gs[..k] == init[..k];
      } else {
        assert gs[..k] == init;
      }
    }
  }

  /** N gestures from any valid state do what Drew describes. */
  lemma {:induction false} RunGestures(s: Editor, gs: seq<Gesture>)
    requires Valid(s)
    ensures Drew(s, gs, Run(s, AllGestureEvents(gs)))
    decreases |gs|
  {
    if gs == [] {
      assert s.lines + [] == s.lines;
    } else {
      var init := gs[..|gs| - 1];
      var g := gs[|gs| - 1];
      assert gs == init + [g];
      RunAppend(s, AllGestureEvents(init), GestureEvents(g));
      RunGestures(s, init);
      var m := Run(s, AllGestureEvents(init));
      RunGesture(m, g);
      DrewOneMore(s, init, g, m, Run(m, GestureEvents(g)));
    }
  }

  /**
   * From the freshly mounted component, N gestures leave N strokes on the
   * canvas and N snapshots in the log; snapshot k holds the first k strokes.
   */
  lemma GesturesFromMount(gs: seq<Gesture>)
    ensures
      var r := Run(Init(), AllGestureEvents(gs));
      && r.lines == GestureStrokes(Pen, gs)
      && |r.lines| == |gs|
      && |r.history| == |gs|
      && r.historyStep == |gs| - 1
      && forall k :: 0 <= k < |gs| ==> r.history[k] == r.lines[..k]
  {
    RunGestures(Init(), gs);
    var r := Run(Init(), AllGestureEvents(gs));
    assert [] + GestureStrokes(Pen, gs) == GestureStrokes(Pen, gs);
    forall k | 0 <= k < |gs| ensures r.history[k] == r.lines[..k] {
      GestureStrokesPrefix(Pen, gs, k);
      assert [] + GestureStrokes(Pen, gs[..k]) == GestureStrokes(Pen, gs[..k]);
    }
  }

  /**
   * Undo after gestures from the mounted component: after one gesture it does
   * nothing (the first stroke cannot be undone); after two or more it removes
   * the TWO newest strokes, because the cursor sits on the snapshot taken
   * before the newest stroke, and undo steps back past it.
   */
  lemma UndoAfterGestures(gs: seq<Gesture>)
    requires |gs| >= 1
    ensures
      var r := Run(Init(), AllGestureEvents(gs));
      && |r.lines| == |gs|
      && (|gs| == 1 ==> Undo(r) == r && |Undo(r).lines| == 1)
      && (|gs| >= 2 ==> Undo(r).lines == r.lines[..|gs| - 2])
  {
    GesturesFromMount(gs);
  }

  /**
   * The newest stroke is in no snapshot, so after an undo no number of redos
   * brings it back: one redo shows all strokes but the newest, and a second
   * redo does nothing.
   */
  lemma RedoNeverRestoresNewestStroke(gs: seq<Gesture>)
    requires |gs| >= 2
    ensures
      var r := Run(Init(), AllGestureEvents(gs));
      var redone := Redo(Undo(r));
      && |r.lines| == |gs|
      && redone.lines == r.lines[..|gs| - 1]
      && redone.lines != r.lines
      && Redo(redone) == redone
  {
    GesturesFromMount(gs);
  }

  /**
   * Right after a pointer-down, undo does not go back to the strokes before
   * it: with nothing recorded before, it does nothing; otherwise it shows the
   * snapshot the cursor was on, which lacks the previous stroke as well.
   * Redo right after a pointer-down never does anything.
   */
  lemma UndoRedoAfterMouseDown(s: Editor, x: int, y: int)
    requires Valid(s)
    ensures var d := MouseDown(s, x, y);
      && (s.historyStep == -1 ==> Undo(d) == d)
      && (s.historyStep >= 0 ==> Undo(d).lines == s.history[s.historyStep])
      && Redo(d) == d
  {
  }

  /** The first stroke on a fresh canvas cannot be undone. */
  lemma FirstStrokeCannotBeUndone(x: int, y: int)
    ensures Undo(MouseDown(Init(), x, y)).lines == [LineData(Pen, [x, y])]
  {
    UndoRedoAfterMouseDown(Init(), x, y);
  }

  /**
   * The TypeError is reachable: a second stroke on a fresh canvas, undone
   * before the pointer is released on the stage (it is released on the undo
   * button), leaves the flag raised over the empty first snapshot, so the
   * next pointer-move or pen click finds no stroke and changes nothing.
   */
  lemma ThrowsAfterUndoWhileDrawing(x0: int, y0: int, x1: int, y1: int, x: int, y: int)
    ensures var s := Undo(MouseDown(MouseUp(MouseDown(Init(), x0, y0)), x1, y1));
      && MoveThrows(s) && MouseMove(s, x, y) == s
      && ClickThrows(s) && CanvasClick(s, x, y) == s
  {
    var d := MouseDown(Init(), x0, y0);
    UndoRedoAfterMouseDown(MouseUp(d), x1, y1);
  }

  /** Undo then redo returns the cursor to where it was and shows the snapshot there. */
  lemma UndoThenRedo(s: Editor)
    requires Valid(s) && s.historyStep > 0
    ensures var r := Redo(Undo(s));
      r.historyStep == s.historyStep && r.history == s.history && r.lines == s.history[s.historyStep]
  {
  }

  /** Redo then undo returns the cursor to where it was and shows the snapshot there. */
  lemma RedoThenUndo(s: Editor)
    requires Valid(s) && s.historyStep < |s.history| - 1
    ensures var r := Undo(Redo(s));
      r.historyStep == s.historyStep && r.history == s.history && r.lines == s.history[s.historyStep]
  {
  }

  /** One gesture on a fresh canvas leaves exactly its stroke, and undo cannot remove it. */
  lemma OneGestureFromMount(g: Gesture)
    ensures
      var r := Run(Init(), GestureEvents(g));
      r.lines == [GestureStroke(Pen, g)] && Undo(r) == r
  {
    RunGesture(Init(), g);
  }

  /**
   * A drag from (0, 0) through (10, 10) to (20, 5) on a fresh canvas draws one
   * pen stroke with those three points, and undo leaves it on the canvas.
   */
  lemma DragScenario(g: Gesture)
    requires g.start == Point(0, 0) && g.moves == [Point(10, 10), Point(20, 5)]
    ensures Run(Init(), GestureEvents(g)).lines == [LineData(Pen, [0, 0, 10, 10, 20, 5])]
    ensures Undo(Run(Init(), GestureEvents(g))) == Run(Init(), GestureEvents(g))
  {
    OneGestureFromMount(g);
    DragScenarioStroke(g);
  }

  lemma DragScenarioStroke(g: Gesture)
    requires g.start == Point(0, 0) && g.moves == [Point(10, 10), Point(20, 5)]
    ensures GestureStroke(Pen, g) == LineData(Pen, [0, 0, 10, 10, 20, 5])
  {
    assert g.moves[1..] == [Point(20, 5)];
    assert g.moves[1..][1..] == [];
    assert Coordinates(g.moves) == [10, 10, 20, 5];
    assert [0, 0] + [10, 10, 20, 5] == [0, 0, 10, 10, 20, 5];
  }

  function KeyEvents(keys: seq<string>): seq<Event>
  {
    if keys == [] then [] else [Key(keys[0])] + KeyEvents(keys[1..])
  }

  lemma RunFirstKey(s: Editor, keys: seq<string>)
    requires Valid(s) && keys != []
    ensures Run(s, KeyEvents(keys)) == Run(KeyDown(s, keys[0]), KeyEvents(keys[1..]))
  {
    RunFirst(s, KeyEvents(keys));
    assert KeyEvents(keys)[0] == Key(keys[0]) && KeyEvents(keys)[1..] == KeyEvents(keys[1..]);
  }

  /**
   * A run of key-downs appends every key name that matches the pattern,
   * whole and in order, when the text tool is selected, and changes nothing
   * otherwise. No key ever removes a character.
   */
  lemma {:induction false} RunKeys(s: Editor, keys: seq<string>)
    requires Valid(s)
    ensures s.tool == Text ==> Run(s, KeyEvents(keys)) == s.(text := s.text + TextInput.Typed(keys))
    ensures s.tool != Text ==> Run(s, KeyEvents(keys)) == s
    decreases |keys|
  {
    if keys == [] {
      assert s.text + "" == s.text;
    } else {
      var t := KeyDown(s, keys[0]);
      RunFirstKey(s, keys);
      RunKeys(t, keys[1..]);
      if s.tool == Text {
        TypedStep(s.text, keys);
      }
    }
  }

  lemma TypedStep(text: string, keys: seq<string>)
    requires keys != []
    ensures (text + TextInput.Accepted(keys[0])) + TextInput.Typed(keys[1..]) == text + TextInput.Typed(keys)
  {
    var first, rest := TextInput.Accepted(keys[0]), TextInput.Typed(keys[1..]);
    assert TextInput.Typed(keys) == first + rest;
    AppendAssociative(text, first, rest);
  }

  lemma AppendAssociative(a: string, b: string, c: string)
    ensures (a + b) + c == a + (b + c)
  {
  }

  /** Typing H, i and then Backspace with the text tool appends "HiBackspace". */
  lemma TypeHiThenBackspace(s: Editor, keys: seq<string>)
    requires Valid(s) && s.tool == Text
    requires keys == ["H", "i", TextInput.Backspace]
    ensures Run(s, KeyEvents(keys)).text == s.text + "HiBackspace"
  {
    RunKeys(s, keys);
    TextInput.BackspaceMatchesKeyPattern();
    assert TextInput.MatchesKeyPattern(keys[0]) && TextInput.MatchesKeyPattern(keys[1]);
    assert keys[1..][1..] == [TextInput.Backspace] && keys[1..][1..][1..] == [];
    assert TextInput.Typed(keys[1..][1..]) == TextInput.Backspace;
    assert TextInput.Typed(keys) == "HiBackspace";
  }
}
