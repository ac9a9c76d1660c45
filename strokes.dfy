/**
 * Strokes of the drawing canvas: the tool a stroke was drawn with and the flat
 * array of pointer coordinates it passes through (x0, y0, x1, y1, ...).
 */
module Strokes {

  /** The three tools the canvas offers. */
  datatype Tool = Pen | Eraser | Text

  /** One freehand stroke. `points` holds x and y coordinates alternately. */
  datatype LineData = LineData(tool: Tool, points: seq<int>)

  /** A pointer position as reported by the rendering stage. */
  datatype Point = Point(x: int, y: int)

  /** A stroke as the handlers build it: at least one point, and whole (x, y) pairs only. */
  predicate WellFormed(line: LineData)
  {
    |line.points| >= 2 && |line.points| % 2 == 0
  }

  predicate AllWellFormed(lines: seq<LineData>)
  {
    forall i :: 0 <= i < |lines| ==> WellFormed(lines[i])
  }

  /** The stroke a pointer-down starts: the current tool and the single pointer position. */
  function StartStroke(tool: Tool, x: int, y: int): (line: LineData)
    ensures WellFormed(line)
  {
    LineData(tool, [x, y])
  }

  /** The flat coordinate array of a sequence of pointer positions. */
  function Coordinates(ps: seq<Point>): (r: seq<int>)
    ensures |r| == 2 * |ps|
  {
    if ps == [] then [] else [ps[0].x, ps[0].y] + Coordinates(ps[1..])
  }

  function Last(lines: seq<LineData>): LineData
    requires lines != []
  {
    lines[|lines| - 1]
  }

  /**
   * The stroke list after the newest stroke has been extended by one pointer
   * position: the last stroke is replaced by a copy whose points have x and y
   * appended, every other stroke is kept.
   */
  function ExtendLast(lines: seq<LineData>, x: int, y: int): (r: seq<LineData>)
    requires lines != []
    ensures |r| == |lines|
    ensures r[..|r| - 1] == lines[..|lines| - 1]
    ensures Last(r).tool == Last(lines).tool
    ensures Last(r).points == Last(lines).points + [x, y]
    ensures AllWellFormed(lines) ==> AllWellFormed(r)
  {
    var lastLine := Last(lines);
    lines[..|lines| - 1] + [lastLine.(points := lastLine.points + [x, y])]
  }
}
