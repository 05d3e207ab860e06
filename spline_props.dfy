/**
 * Properties of the two bezier curves: both pass through every visible entry in order,
 * the horizontal bezier leaves and enters every entry horizontally, and the cubic
 * bezier joins its segments smoothly (the tangents on both sides of an inner entry are
 * equal) and turns into straight lines at intensity 0.
 */
module SplineProps {
  import opened GapEntries
  import opened Paths
  import opened Splines

  /** Command c ends at the point (x, y). */
  predicate EndsAt(c: PathCmd, x: real, y: real)
  {
    match c
    case MoveTo(a, b) => a == x && b == y
    case LineTo(a, b) => a == x && b == y
    case CubicTo(_, _, _, _, a, b) => a == x && b == y
    case Close => false
  }

  lemma {:induction false} HorizontalSegmentsAt(es: seq<GapPoint>, lo: nat, hi: nat, phaseY: real)
    requires 1 <= lo <= hi <= |es|
    ensures forall k :: 0 <= k < hi - lo ==>
      HorizontalSegments(es, lo, hi, phaseY)[k] == HorizontalSegment(es[lo + k - 1], es[lo + k], phaseY)
    decreases hi
  {
    if lo < hi {
      HorizontalSegmentsAt(es, lo, hi - 1, phaseY);
    }
  }

  lemma {:induction false} CubicSegmentsAt(es: seq<GapPoint>, lo: nat, hi: nat, intensity: real, phaseY: real)
    requires 1 <= lo <= hi <= |es|
    ensures forall k :: 0 <= k < hi - lo ==>
      CubicSegments(es, lo, hi, intensity, phaseY)[k] == CubicSegmentAt(es, lo + k, intensity, phaseY)
    decreases hi
  {
    if lo < hi {
      CubicSegmentsAt(es, lo, hi - 1, intensity, phaseY);
    }
  }

  /** A horizontal segment: control points at the midpoint x, at the start's and the end's y, ending at cur. */
  lemma HorizontalSegmentShape(prev: GapPoint, cur: GapPoint, phaseY: real)
    ensures var c := HorizontalSegment(prev, cur, phaseY);
      c.CubicTo? && c.x1 == c.x2 && 2.0 * c.x1 == prev.x + cur.x
      && (prev.x <= cur.x ==> prev.x <= c.x1 <= cur.x)
      && c.y1 == Scale(prev.y, phaseY) && c.y2 == Scale(cur.y, phaseY)
      && EndsAt(c, cur.x, Scale(cur.y, phaseY))
  {
  }

  /** The horizontal bezier starts at entry min and its command k ends at entry min + k. */
  lemma HorizontalThroughEntries(es: seq<GapPoint>, min: nat, range: nat, phaseY: real)
    requires min + range < |es| && range >= 1
    ensures |HorizontalPath(es, min, range, phaseY)| == range + 1
    ensures HorizontalPath(es, min, range, phaseY)[0].MoveTo?
    ensures forall k :: 1 <= k <= range ==> HorizontalPath(es, min, range, phaseY)[k].CubicTo?
    ensures forall k :: 0 <= k <= range ==> EndsAt(HorizontalPath(es, min, range, phaseY)[k], es[min + k].x, Scale(es[min + k].y, phaseY))
  {
    var p := HorizontalPath(es, min, range, phaseY);
    var segs := HorizontalSegments(es, min + 1, min + range + 1, phaseY);
    assert p == [MoveTo(es[min].x, Scale(es[min].y, phaseY))] + segs;
    HorizontalSegmentsAt(es, min + 1, min + range + 1, phaseY);
    forall k | 1 <= k <= range
      ensures p[k].CubicTo? && EndsAt(p[k], es[min + k].x, Scale(es[min + k].y, phaseY))
    {
      assert p[k] == segs[k - 1];
      HorizontalSegmentShape(es[min + k - 1], es[min + k], phaseY);
    }
  }

  /** The cubic bezier starts at entry min and its command k ends at entry min + k. */
  lemma CubicThroughEntries(es: seq<GapPoint>, min: nat, range: nat, intensity: real, phaseY: real)
    requires min + range < |es| && range >= 1
    ensures |CubicPath(es, min, range, intensity, phaseY)| == range + 1
    ensures CubicPath(es, min, range, intensity, phaseY)[0].MoveTo?
    ensures forall k :: 1 <= k <= range ==> CubicPath(es, min, range, intensity, phaseY)[k].CubicTo?
    ensures forall k :: 0 <= k <= range ==> EndsAt(CubicPath(es, min, range, intensity, phaseY)[k], es[min + k].x, Scale(es[min + k].y, phaseY))
  {
    var p := CubicPath(es, min, range, intensity, phaseY);
    var segs := CubicSegments(es, min + 1, min + range + 1, intensity, phaseY);
    assert p == [MoveTo(es[min].x, Scale(es[min].y, phaseY))] + segs;
    CubicSegmentsAt(es, min + 1, min + range + 1, intensity, phaseY);
    forall k | 1 <= k <= range
      ensures p[k].CubicTo? && EndsAt(p[k], es[min + k].x, Scale(es[min + k].y, phaseY))
    {
      assert p[k] == segs[k - 1];
    }
  }

  /**
   * At an inner entry j the cubic bezier is smooth: the second control point of the
   * segment into j and the first control point of the segment out of j are mirror images
   * through entry j (both come from the chord between entries j - 1 and j + 1).
   */
  lemma CubicSmoothJoin(es: seq<GapPoint>, j: nat, intensity: real, phaseY: real)
    requires 1 <= j && j + 1 < |es|
    ensures var a := CubicSegmentAt(es, j, intensity, phaseY);
      var b := CubicSegmentAt(es, j + 1, intensity, phaseY);
      a.CubicTo? && b.CubicTo?
      && b.x1 - a.x == a.x - a.x2 && b.y1 - a.y == a.y - a.y2
      && b.x1 - es[j].x == Scale(es[j + 1].x - es[j - 1].x, intensity)
  {
    var d := Scale(es[j + 1].y - es[j - 1].y, intensity);
    var y := es[j].y;
    assert Scale(y + d, phaseY) - Scale(y, phaseY) == Scale(d, phaseY);
    assert Scale(y, phaseY) - Scale(y - d, phaseY) == Scale(d, phaseY);
  }

  /** At intensity 0 every cubic segment has its control points on its endpoints: a straight line. */
  lemma CubicZeroIntensity(prevPrev: GapPoint, prev: GapPoint, cur: GapPoint, next: GapPoint, phaseY: real)
    ensures var c := CubicSegment(prevPrev, prev, cur, next, 0.0, phaseY);
      c.CubicTo? && c.x1 == prev.x && c.y1 == Scale(prev.y, phaseY) && c.x2 == cur.x && c.y2 == Scale(cur.y, phaseY)
  {
  }

  /** At the ends of the data set the window is clamped: the first segment's tangent starts at entry 0 itself, the last ends at the last entry. */
  lemma CubicWindowClampsAtEnds(es: seq<GapPoint>, intensity: real, phaseY: real)
    requires |es| >= 2
    ensures CubicSegmentAt(es, 1, intensity, phaseY) == CubicSegment(es[0], es[0], es[1], es[NextIndex(|es|, 1)], intensity, phaseY)
    ensures CubicSegmentAt(es, |es| - 1, intensity, phaseY)
      == CubicSegment(es[PrevPrevIndex(|es| - 1)], es[|es| - 2], es[|es| - 1], es[|es| - 1], intensity, phaseY)
  {
  }
}
