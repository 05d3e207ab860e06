/**
 * The two bezier modes of the line renderer. The horizontal bezier joins neighbouring
 * entries with a cubic whose control points sit at the midpoint x, each at its own
 * endpoint's y. The cubic bezier takes the control points from a four-entry window:
 * the previous-but-one, previous, current and next entry, scaled by the cubic intensity.
 * The window is clamped to the data set at both ends. When fill is enabled, a copy of the
 * curve is closed down to fillMin (drawCubicFill).
 */
module Splines {
  import opened GapEntries
  import opened Paths

  /** The horizontal bezier segment from prev to cur. */
  function HorizontalSegment(prev: GapPoint, cur: GapPoint, phaseY: real): PathCmd
  {
    var cpx := prev.x + (cur.x - prev.x) / 2.0;
    CubicTo(cpx, Scale(prev.y, phaseY), cpx, Scale(cur.y, phaseY), cur.x, Scale(cur.y, phaseY))
  }

  /** The horizontal segments into the entries lo .. hi - 1. */
  function HorizontalSegments(es: seq<GapPoint>, lo: nat, hi: nat, phaseY: real): (r: seq<PathCmd>)
    requires 1 <= lo <= hi <= |es|
    ensures |r| == hi - lo
    decreases hi
  {
    if lo == hi then [] else HorizontalSegments(es, lo, hi - 1, phaseY) + [HorizontalSegment(es[hi - 2], es[hi - 1], phaseY)]
  }

  /** The curve drawHorizontalBezier builds over the visible entries min .. min + range. */
  function HorizontalPath(es: seq<GapPoint>, min: nat, range: nat, phaseY: real): seq<PathCmd>
    requires min + range < |es|
  {
    if range >= 1 then [MoveTo(es[min].x, Scale(es[min].y, phaseY))] + HorizontalSegments(es, min + 1, min + range + 1, phaseY)
    else []
  }

  /** The entry before the previous one in the window of segment j: two back, clamped at 0. */
  function PrevPrevIndex(j: nat): (i: nat)
    ensures i <= j && (j >= 2 ==> i == j - 2) && (j < 2 ==> i == 0)
  {
    if j >= 2 then j - 2 else 0
  }

  /** The entry after the current one in the window of segment j: one on, clamped at the last entry. */
  function NextIndex(count: nat, j: nat): (i: nat)
    requires j < count
    ensures j <= i < count && (j + 1 < count ==> i == j + 1) && (j + 1 == count ==> i == j)
  {
    if j + 1 < count then j + 1 else j
  }

  /** The cubic segment from prev to cur, with tangents from prevPrev to cur and from prev to next. */
  function CubicSegment(prevPrev: GapPoint, prev: GapPoint, cur: GapPoint, next: GapPoint, intensity: real, phaseY: real): PathCmd
  {
    var prevDx := Scale(cur.x - prevPrev.x, intensity);
    var prevDy := Scale(cur.y - prevPrev.y, intensity);
    var curDx := Scale(next.x - prev.x, intensity);
    var curDy := Scale(next.y - prev.y, intensity);
    CubicTo(prev.x + prevDx, Scale(prev.y + prevDy, phaseY), cur.x - curDx, Scale(cur.y - curDy, phaseY), cur.x, Scale(cur.y, phaseY))
  }

  /** The cubic segment into entry j. */
  function CubicSegmentAt(es: seq<GapPoint>, j: nat, intensity: real, phaseY: real): PathCmd
    requires 1 <= j < |es|
  {
    CubicSegment(es[PrevPrevIndex(j)], es[j - 1], es[j], es[NextIndex(|es|, j)], intensity, phaseY)
  }

  /** The cubic segments into the entries lo .. hi - 1. */
  function CubicSegments(es: seq<GapPoint>, lo: nat, hi: nat, intensity: real, phaseY: real): (r: seq<PathCmd>)
    requires 1 <= lo <= hi <= |es|
    ensures |r| == hi - lo
    decreases hi
  {
    if lo == hi then [] else CubicSegments(es, lo, hi - 1, intensity, phaseY) + [CubicSegmentAt(es, hi - 1, intensity, phaseY)]
  }

  /** The curve drawCubicBezier builds over the visible entries min .. min + range. */
  function CubicPath(es: seq<GapPoint>, min: nat, range: nat, intensity: real, phaseY: real): seq<PathCmd>
    requires min + range < |es|
  {
    if range >= 1 then [MoveTo(es[min].x, Scale(es[min].y, phaseY))] + CubicSegments(es, min + 1, min + range + 1, intensity, phaseY)
    else []
  }

  /** What drawCubicFill appends to the copy of the curve: down to fillMin at the last entry, back at the first, closed. */
  function SplineFillClosing(es: seq<GapPoint>, min: nat, range: nat, fillMin: real): seq<PathCmd>
    requires min + range < |es|
  {
    [LineTo(es[min + range].x, fillMin), LineTo(es[min].x, fillMin), Close]
  }

  /** drawCubicFill on the copy of the curve. */
  method DrawCubicFill(es: seq<GapPoint>, min: nat, range: nat, fillMin: real, spline: Path)
    requires min + range < |es|
    modifies spline
    ensures spline.cmds == old(spline.cmds) + SplineFillClosing(es, min, range, fillMin)
  {
    spline.LineTo(es[min + range].x, fillMin);
    spline.LineTo(es[min].x, fillMin);
    spline.Close();
  }

  /** The loop of drawHorizontalBezier after the spline has started at entry min. */
  method AppendHorizontalSegments(es: seq<GapPoint>, min: nat, range: nat, phaseY: real, cubicPath: Path)
    requires min + range < |es|
    modifies cubicPath
    ensures cubicPath.cmds == old(cubicPath.cmds) + HorizontalSegments(es, min + 1, min + range + 1, phaseY)
  {
    ghost var before := cubicPath.cmds;
    var prev := es[min];
    var cur := prev;
    for j := min + 1 to min + range + 1
      invariant cur == es[j - 1]
      invariant cubicPath.cmds == before + HorizontalSegments(es, min + 1, j, phaseY)
    {
      prev := cur;
      cur := es[j];
      var cpx := prev.x + (cur.x - prev.x) / 2.0;
      var y1, y2 := prev.y * phaseY, cur.y * phaseY;
      assert y1 == Scale(prev.y, phaseY) && y2 == Scale(cur.y, phaseY);
      cubicPath.CubicTo(cpx, y1, cpx, y2, cur.x, y2);
      assert HorizontalSegments(es, min + 1, j + 1, phaseY) == HorizontalSegments(es, min + 1, j, phaseY) + [HorizontalSegment(prev, cur, phaseY)];
    }
  }

  /** drawHorizontalBezier: the curve, and its closed copy when fill is enabled. */
  method DrawHorizontalBezier(es: seq<GapPoint>, min: nat, range: nat, phaseY: real, fillEnabled: bool, fillMin: real,
                              cubicPath: Path, cubicFillPath: Path)
    requires min + range < |es| && cubicPath != cubicFillPath
    modifies cubicPath, cubicFillPath
    ensures cubicPath.cmds == HorizontalPath(es, min, range, phaseY)
    ensures fillEnabled ==> cubicFillPath.cmds == HorizontalPath(es, min, range, phaseY) + SplineFillClosing(es, min, range, fillMin)
    ensures !fillEnabled ==> cubicFillPath.cmds == old(cubicFillPath.cmds)
  {
    cubicPath.Reset();
    if range >= 1 {
      var cur := es[min];
      var y := cur.y * phaseY;
      assert y == Scale(cur.y, phaseY);
      cubicPath.MoveTo(cur.x, y);
      assert cubicPath.cmds == [MoveTo(es[min].x, Scale(es[min].y, phaseY))];
      AppendHorizontalSegments(es, min, range, phaseY, cubicPath);
    }
    assert cubicPath.cmds == HorizontalPath(es, min, range, phaseY);
    ghost var curve := cubicPath.cmds;
    if fillEnabled {
      cubicFillPath.Reset();
      cubicFillPath.AddPath(cubicPath);
      assert cubicFillPath.cmds == curve;
      DrawCubicFill(es, min, range, fillMin, cubicFillPath);
    }
  }

  /** One cubicTo of drawCubicBezier's loop, for the window prevPrev, prev, cur, next. */
  method AppendCubicSegment(prevPrev: GapPoint, prev: GapPoint, cur: GapPoint, next: GapPoint, intensity: real, phaseY: real, cubicPath: Path)
    modifies cubicPath
    ensures cubicPath.cmds == old(cubicPath.cmds) + [CubicSegment(prevPrev, prev, cur, next, intensity, phaseY)]
  {
    var prevDx := (cur.x - prevPrev.x) * intensity;
    var prevDy := (cur.y - prevPrev.y) * intensity;
    var curDx := (next.x - prev.x) * intensity;
    var curDy := (next.y - prev.y) * intensity;
    var y1, y2, y := (prev.y + prevDy) * phaseY, (cur.y - curDy) * phaseY, cur.y * phaseY;
    assert prevDx == Scale(cur.x - prevPrev.x, intensity) && prevDy == Scale(cur.y - prevPrev.y, intensity);
    assert curDx == Scale(next.x - prev.x, intensity) && curDy == Scale(next.y - prev.y, intensity);
    assert y1 == Scale(prev.y + prevDy, phaseY) && y2 == Scale(cur.y - curDy, phaseY) && y == Scale(cur.y, phaseY);
    cubicPath.CubicTo(prev.x + prevDx, y1, cur.x - curDx, y2, cur.x, y);
  }

  /** The loop of drawCubicBezier after the spline has started at entry min. */
  method AppendCubicSegments(es: seq<GapPoint>, min: nat, range: nat, intensity: real, phaseY: real, cubicPath: Path)
    requires min + range < |es|
    modifies cubicPath
    ensures cubicPath.cmds == old(cubicPath.cmds) + CubicSegments(es, min + 1, min + range + 1, intensity, phaseY)
  {
    ghost var before := cubicPath.cmds;
    var firstIndex := min + 1;
    var prev := es[PrevPrevIndex(firstIndex)];
    var cur := es[firstIndex - 1];
    var next := cur;
    var nextIndex := -1;
    for j := min + 1 to min + range + 1
      invariant prev == es[PrevPrevIndex(j)] && cur == es[j - 1]
      invariant nextIndex == -1 || (0 <= nextIndex < |es| && next == es[nextIndex] && (nextIndex == j || j == |es|))
      invariant cubicPath.cmds == before + CubicSegments(es, min + 1, j, intensity, phaseY)
    {
      var prevPrev := prev;
      prev := cur;
      cur := if nextIndex == j then next else es[j];
      nextIndex := if j + 1 < |es| then j + 1 else j;
      next := es[nextIndex];
      AppendCubicSegment(prevPrev, prev, cur, next, intensity, phaseY, cubicPath);
      assert CubicSegments(es, min + 1, j + 1, intensity, phaseY)
        == CubicSegments(es, min + 1, j, intensity, phaseY) + [CubicSegment(prevPrev, prev, cur, next, intensity, phaseY)];
    }
  }

  /** drawCubicBezier: the curve, and its closed copy when fill is enabled. */
  method DrawCubicBezier(es: seq<GapPoint>, min: nat, range: nat, intensity: real, phaseY: real, fillEnabled: bool, fillMin: real,
                         cubicPath: Path, cubicFillPath: Path)
    requires min + range < |es| && cubicPath != cubicFillPath
    modifies cubicPath, cubicFillPath
    ensures cubicPath.cmds == CubicPath(es, min, range, intensity, phaseY)
    ensures fillEnabled ==> cubicFillPath.cmds == CubicPath(es, min, range, intensity, phaseY) + SplineFillClosing(es, min, range, fillMin)
    ensures !fillEnabled ==> cubicFillPath.cmds == old(cubicFillPath.cmds)
  {
    cubicPath.Reset();
    if range >= 1 {
      var cur := es[min];
      var y := cur.y * phaseY;
      assert y == Scale(cur.y, phaseY);
      cubicPath.MoveTo(cur.x, y);
      assert cubicPath.cmds == [MoveTo(es[min].x, Scale(es[min].y, phaseY))];
      AppendCubicSegments(es, min, range, intensity, phaseY, cubicPath);
    }
    assert cubicPath.cmds == CubicPath(es, min, range, intensity, phaseY);
    ghost var curve := cubicPath.cmds;
    if fillEnabled {
      cubicFillPath.Reset();
      cubicFillPath.AddPath(cubicPath);
      assert cubicFillPath.cmds == curve;
      DrawCubicFill(es, min, range, fillMin, cubicFillPath);
    }
  }
}
