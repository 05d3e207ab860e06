/**
 * The gap/limit annotator of LineChartRenderer (buildLineDataSetWithIntersections,
 * crossesLimit, interpolateGapEntry): it walks the raw entries once, flags each
 * entry whose x-step exceeds the maximum allowed gap, marks isolated single
 * points, and inserts an interpolated entry wherever a segment strictly crosses
 * the top or the bottom limit.
 */
module Annotator {
  import opened Options
  import opened GapEntries

  /** A raw chart entry. */
  datatype Point = Point(x: real, y: real)

  /** A segment crosses a limit only when one end is strictly below and the other strictly above. */
  predicate CrossesLimit(y1: real, y2: real, limit: real)
  {
    (y1 < limit && y2 > limit) || (y1 > limit && y2 < limit)
  }

  /** The entry where the segment (x1, y1)-(x2, y2) meets y = limitY; the midpoint x when y1 == y2. */
  function InterpolateGapEntry(x1: real, y1: real, x2: real, y2: real, limitY: real, isGap: bool): (e: GapPoint)
    ensures e.y == limitY && e.isGap == isGap && !e.isSinglePoint
  {
    if y1 == y2 then GapPoint((x1 + x2) / 2.0, limitY, isGap, false)
    else
      var t := (limitY - y1) / (y2 - y1);
      GapPoint(x1 + t * (x2 - x1), limitY, isGap, false)
  }

  /** The step from x1 to x2 is a gap: gaps are in use (maxGap > 0) and the step exceeds maxGap. */
  predicate IsGapStep(maxGap: real, x1: real, x2: real)
  {
    maxGap > 0.0 && x2 - x1 > maxGap
  }

  /** The entry inserted for one (possibly absent) limit on the segment p1-p2: none, or one. */
  function LimitCrossing(p1: Point, p2: Point, limit: Option<real>, isGap: bool): (c: seq<GapPoint>)
    ensures |c| <= 1
  {
    if limit.Some? && CrossesLimit(p1.y, p2.y, limit.value)
    then [InterpolateGapEntry(p1.x, p1.y, p2.x, p2.y, limit.value, isGap)]
    else []
  }

  /** The entries inserted between p1 and p2: the top crossing and the bottom crossing, by x. */
  function Crossings(p1: Point, p2: Point, top: Option<real>, bottom: Option<real>, isGap: bool): (c: seq<GapPoint>)
    ensures |c| <= 2
  {
    var n1 := LimitCrossing(p1, p2, top, isGap);
    var n2 := LimitCrossing(p1, p2, bottom, isGap);
    if |n1| == 1 && |n2| == 1 then
      (if n1[0].x < n2[0].x then n1 + n2 else n2 + n1)
    else n1 + n2
  }

  /** The gap flag the annotator gives raw entry i: the first entry always starts a gap. */
  predicate GapAt(pts: seq<Point>, maxGap: real, i: nat)
    requires i < |pts|
  {
    i == 0 || IsGapStep(maxGap, pts[i - 1].x, pts[i].x)
  }

  /** Raw entry i as the annotator first creates it. */
  function RawEntry(pts: seq<Point>, maxGap: real, i: nat): GapPoint
    requires i < |pts|
  {
    GapPoint(pts[i].x, pts[i].y, GapAt(pts, maxGap, i), false)
  }

  /** The entries inserted between raw entries i - 1 and i, as the crossing rule cross lists them. */
  function CrossingsAt(pts: seq<Point>, cross: (Point, Point, bool) -> seq<GapPoint>, maxGap: real, i: nat): seq<GapPoint>
    requires 1 <= i < |pts|
  {
    cross(pts[i - 1], pts[i], GapAt(pts, maxGap, i))
  }

  /** setSinglePoint(true) on the last entry of the list. */
  function MarkLast(s: seq<GapPoint>): (r: seq<GapPoint>)
    requires |s| > 0
  {
    s[|s| - 1 := s[|s| - 1].(isSinglePoint := true)]
  }

  /**
   * One iteration of the annotator on values: the previous last entry becomes a single
   * point when both it and the new entry are gaps, then the crossings c and the new
   * entry p2 are appended.
   */
  function Extend(prev: seq<GapPoint>, c: seq<GapPoint>, p2: Point, isGap: bool): (r: seq<GapPoint>)
    requires |prev| > 0
    ensures |r| == |prev| + |c| + 1
  {
    var marked := if isGap && prev[|prev| - 1].isGap then MarkLast(prev) else prev;
    marked + c + [GapPoint(p2.x, p2.y, isGap, false)]
  }

  /**
   * The annotated list after the loop has consumed the first k raw entries; cross lists
   * the entries inserted on a segment (the annotator's rule is CrossRule(top, bottom)).
   */
  function Build(pts: seq<Point>, cross: (Point, Point, bool) -> seq<GapPoint>, maxGap: real, k: nat): (r: seq<GapPoint>)
    requires 1 <= k <= |pts|
    ensures |r| >= k
  {
    if k == 1 then [RawEntry(pts, maxGap, 0)]
    else Extend(Build(pts, cross, maxGap, k - 1), CrossingsAt(pts, cross, maxGap, k - 1), pts[k - 1], GapAt(pts, maxGap, k - 1))
  }

  /** The annotator's crossing rule for the limits top and bottom. */
  function CrossRule(top: Option<real>, bottom: Option<real>): (Point, Point, bool) -> seq<GapPoint>
  {
    (p1, p2, isGap) => Crossings(p1, p2, top, bottom, isGap)
  }

  /** Build grows by one Extend per raw entry. */
  lemma BuildStep(pts: seq<Point>, cross: (Point, Point, bool) -> seq<GapPoint>, maxGap: real, k: nat, isGap: bool)
    requires 1 <= k < |pts| && isGap == GapAt(pts, maxGap, k)
    ensures Build(pts, cross, maxGap, k + 1) == Extend(Build(pts, cross, maxGap, k), cross(pts[k - 1], pts[k], isGap), pts[k], isGap)
  {
  }

  /** The annotated data set: the loop's result, with the last entry marked single when it is a gap. */
  function Annotate(pts: seq<Point>, top: Option<real>, bottom: Option<real>, maxGap: real): (r: seq<GapPoint>)
    ensures |r| >= |pts|
  {
    if |pts| == 0 then []
    else
      var b := Build(pts, CrossRule(top, bottom), maxGap, |pts|);
      if |pts| >= 2 && b[|b| - 1].isGap then MarkLast(b) else b
  }

  /** Pointwise agreement of entries with values carries over to concatenation. */
  lemma ValuesAppend(a: seq<GapEntry>, b: seq<GapEntry>, e: GapEntry, va: seq<GapPoint>, vb: seq<GapPoint>, ve: GapPoint)
    requires |a| == |va| && |b| == |vb| && e.Value() == ve
    requires forall k :: 0 <= k < |a| ==> a[k].Value() == va[k]
    requires forall k :: 0 <= k < |b| ==> b[k].Value() == vb[k]
    ensures forall k :: 0 <= k < |a| + |b| + 1 ==> (a + b + [e])[k].Value() == (va + vb + [ve])[k]
  {
    forall k | 0 <= k < |a| + |b| + 1
      ensures (a + b + [e])[k].Value() == (va + vb + [ve])[k]
    {
      if k < |a| {
        assert (a + b + [e])[k] == a[k];
      } else if k < |a| + |b| {
        assert (a + b + [e])[k] == b[k - |a|];
      } else {
        assert (a + b + [e])[k] == e;
      }
    }
  }

  /** setSinglePoint(true) on the entry most recently appended (the annotator's e1 or e2). */
  method MarkLastSinglePoint(es: seq<GapEntry>, ghost vs: seq<GapPoint>)
    requires |es| == |vs| > 0
    requires forall k :: 0 <= k < |es| - 1 ==> es[k] != es[|es| - 1]
    requires forall k :: 0 <= k < |es| ==> es[k].Value() == vs[k]
    modifies es[|es| - 1]
    ensures forall k :: 0 <= k < |es| ==> es[k].Value() == MarkLast(vs)[k]
  {
    var last := es[|es| - 1];
    last.SetSinglePoint(true);
  }

  /**
   * The interpolated entries for the segment (x1, y1)-(x2, y2), created fresh and
   * listed in the order they are appended: both crossings ordered by x, else the
   * top crossing before the bottom one.
   */
  method NewCrossingEntries(p1: Point, p2: Point, top: Option<real>, bottom: Option<real>, isGap: bool)
    returns (inserted: seq<GapEntry>)
    ensures forall k :: 0 <= k < |inserted| ==> fresh(inserted[k])
    ensures |inserted| == |Crossings(p1, p2, top, bottom, isGap)|
    ensures forall k :: 0 <= k < |inserted| ==> inserted[k].Value() == Crossings(p1, p2, top, bottom, isGap)[k]
  {
    var newEntry1: GapEntry? := null;
    var newEntry2: GapEntry? := null;
    var c1 := LimitCrossing(p1, p2, top, isGap);
    if c1 != [] {
      newEntry1 := new GapEntry(c1[0].x, c1[0].y, c1[0].isGap);
    }
    var c2 := LimitCrossing(p1, p2, bottom, isGap);
    if c2 != [] {
      newEntry2 := new GapEntry(c2[0].x, c2[0].y, c2[0].isGap);
    }
    inserted := [];
    if newEntry1 != null && newEntry2 != null {
      if newEntry1.x < newEntry2.x {
        inserted := inserted + [newEntry1];
        inserted := inserted + [newEntry2];
      } else {
        inserted := inserted + [newEntry2];
        inserted := inserted + [newEntry1];
      }
    } else {
      if newEntry1 != null {
        inserted := inserted + [newEntry1];
      }
      if newEntry2 != null {
        inserted := inserted + [newEntry2];
      }
    }
  }

  /**
   * One pass of the annotator's loop body: creates e2 for p2, marks e1 (the last entry of
   * result) single when both are gaps, and appends the crossings and e2.
   */
  method AppendSegment(result: seq<GapEntry>, ghost prev: seq<GapPoint>, ghost cross: (Point, Point, bool) -> seq<GapPoint>,
                       p1: Point, p2: Point, top: Option<real>, bottom: Option<real>, isGap: bool)
    returns (grown: seq<GapEntry>)
    requires |result| == |prev| > 0
    requires cross == CrossRule(top, bottom)
    requires forall k :: 0 <= k < |result| - 1 ==> result[k] != result[|result| - 1]
    requires forall k :: 0 <= k < |result| ==> result[k].Value() == prev[k]
    modifies result[|result| - 1]
    ensures |grown| > |result| && forall k :: 0 <= k < |result| ==> grown[k] == result[k]
    ensures fresh(grown[|grown| - 1])
    ensures forall k :: 0 <= k < |grown| - 1 ==> grown[k] != grown[|grown| - 1]
    ensures |grown| == |Extend(prev, cross(p1, p2, isGap), p2, isGap)|
    ensures forall k :: 0 <= k < |grown| ==> grown[k].Value() == Extend(prev, cross(p1, p2, isGap), p2, isGap)[k]
  {
    var e1 := result[|result| - 1];
    var e2 := new GapEntry(p2.x, p2.y, isGap);
    var wasGap := e1.IsGap();
    if isGap && wasGap {
      MarkLastSinglePoint(result, prev);
    }
    ghost var marked := if isGap && wasGap then MarkLast(prev) else prev;
    var inserted := NewCrossingEntries(p1, p2, top, bottom, isGap);
    assert forall k :: 0 <= k < |result| ==> result[k].Value() == marked[k];
    grown := result + inserted + [e2];
    ValuesAppend(result, inserted, e2, marked, cross(p1, p2, isGap), GapPoint(p2.x, p2.y, isGap, false));
  }

  /** The loop of buildLineDataSetWithIntersections: entries for all raw points, nothing marked afterwards. */
  method BuildEntries(pts: seq<Point>, top: Option<real>, bottom: Option<real>, maxGap: real)
    returns (result: seq<GapEntry>)
    requires |pts| >= 1
    ensures |result| >= 1 && fresh(result[|result| - 1])
    ensures forall k :: 0 <= k < |result| - 1 ==> result[k] != result[|result| - 1]
    ensures |result| == |Build(pts, CrossRule(top, bottom), maxGap, |pts|)|
    ensures forall k :: 0 <= k < |result| ==> result[k].Value() == Build(pts, CrossRule(top, bottom), maxGap, |pts|)[k]
  {
    ghost var cross := CrossRule(top, bottom);
    var useGaps := maxGap > 0.0;
    var e1 := new GapEntry(pts[0].x, pts[0].y, true);
    result := [e1];
    var i := 1;
    ghost var built := Build(pts, cross, maxGap, 1);
    while i < |pts|
      invariant 1 <= i <= |pts| && |result| >= 1
      invariant fresh(result[|result| - 1])
      invariant forall k :: 0 <= k < |result| - 1 ==> result[k] != result[|result| - 1]
      invariant built == Build(pts, cross, maxGap, i)
      invariant |result| == |built|
      invariant forall k :: 0 <= k < |result| ==> result[k].Value() == built[k]
    {
      var isGap := useGaps && (pts[i].x - pts[i - 1].x > maxGap);
      assert isGap == GapAt(pts, maxGap, i);
      result := AppendSegment(result, built, cross, pts[i - 1], pts[i], top, bottom, isGap);
      BuildStep(pts, cross, maxGap, i, isGap);
      built := Extend(built, cross(pts[i - 1], pts[i], isGap), pts[i], isGap);
      i := i + 1;
    }
  }

  /**
   * buildLineDataSetWithIntersections: a fresh GapEntry per raw entry and per crossing;
   * after the loop the last entry (e2, present once there are two raw points) is marked
   * single when it is a gap.
   */
  method BuildLineDataSetWithIntersections(pts: seq<Point>, top: Option<real>, bottom: Option<real>, maxGap: real)
    returns (result: seq<GapEntry>)
    ensures |result| == |Annotate(pts, top, bottom, maxGap)|
    ensures forall k :: 0 <= k < |result| ==> result[k].Value() == Annotate(pts, top, bottom, maxGap)[k]
  {
    result := [];
    if |pts| < 1 {
      return;
    }
    result := BuildEntries(pts, top, bottom, maxGap);
    if |pts| >= 2 {
      var e2 := result[|result| - 1];
      var lastGap := e2.IsGap();
      if lastGap {
        MarkLastSinglePoint(result, Build(pts, CrossRule(top, bottom), maxGap, |pts|));
      }
    }
  }
}
