/**
 * What the annotator promises about its output: where the interpolated entries lie,
 * how many there are and in which order, where the raw entries end up, and how the
 * gap and single-point flags are distributed.
 */
module AnnotatorProps {
  import opened Options
  import opened GapEntries
  import opened Annotator
  import opened Classifier
  import opened FillPaths

  /**
   * An interpolated entry on a strict crossing lies on the limit, on the segment
   * (x1, y1)-(x2, y2), and strictly between x1 and x2 when they differ.
   */
  lemma {:induction false} InterpolatedOnSegment(x1: real, y1: real, x2: real, y2: real, limit: real, isGap: bool)
    requires CrossesLimit(y1, y2, limit)
    ensures var e := InterpolateGapEntry(x1, y1, x2, y2, limit, isGap);
      e.y == limit && e.isGap == isGap && !e.isSinglePoint
      && (e.x - x1) * (y2 - y1) == (limit - y1) * (x2 - x1)
      && Min(x1, x2) <= e.x <= Max(x1, x2)
      && (x1 != x2 ==> Min(x1, x2) < e.x < Max(x1, x2))
  {
    var d := y2 - y1;
    var t := (limit - y1) / d;
    assert d != 0.0;
    assert t * d == limit - y1;
    FractionBetween(limit - y1, d);
    var e := InterpolateGapEntry(x1, y1, x2, y2, limit, isGap);
    assert e.x - x1 == t * (x2 - x1);
    ScaledBetween(t, x2 - x1);
  }

  /**
   * A level segment falls back to the midpoint x; such a segment never crosses a limit
   * strictly, so the annotator never takes the fallback.
   */
  lemma LevelSegmentMidpoint(x1: real, y: real, x2: real, limit: real, isGap: bool)
    ensures InterpolateGapEntry(x1, y, x2, y, limit, isGap) == GapPoint((x1 + x2) / 2.0, limit, isGap, false)
    ensures !CrossesLimit(y, y, limit)
  {
  }

  /** On a strict crossing the interpolation parameter lies strictly inside (0, 1). */
  lemma FractionBetween(a: real, d: real)
    requires (0.0 < a < d) || (d < a < 0.0)
    ensures 0.0 < a / d < 1.0
  {
    var q := a / d;
    assert q * d == a;
    if d > 0.0 {
      if q <= 0.0 { PositiveProduct(-q, d); }
      if q >= 1.0 { PositiveProduct(q - 1.0, d); }
    } else {
      if q <= 0.0 { PositiveProduct(-q, -d); }
      if q >= 1.0 { PositiveProduct(q - 1.0, -d); }
    }
  }

  /** A fraction t of a span w lies between 0 and w, strictly when w is not 0. */
  lemma ScaledBetween(t: real, w: real)
    requires 0.0 < t < 1.0
    ensures Min(0.0, w) <= t * w <= Max(0.0, w)
    ensures w != 0.0 ==> Min(0.0, w) < t * w < Max(0.0, w)
  {
    if w > 0.0 {
      PositiveProduct(t, w);
      PositiveProduct(1.0 - t, w);
    } else if w < 0.0 {
      PositiveProduct(t, -w);
      PositiveProduct(1.0 - t, -w);
    }
  }

  lemma PositiveProduct(a: real, b: real)
    requires a >= 0.0 && b > 0.0
    ensures a * b >= 0.0
    ensures a > 0.0 ==> a * b > 0.0
  {
  }

  /** The limit is present and the segment p1-p2 crosses it strictly. */
  predicate Crossed(p1: Point, p2: Point, limit: Option<real>)
  {
    limit.Some? && CrossesLimit(p1.y, p2.y, limit.value)
  }

  /** e lies on the segment p1-p2: on its line and within its x-range. */
  predicate OnSegment(p1: Point, p2: Point, e: GapPoint)
  {
    (e.x - p1.x) * (p2.y - p1.y) == (e.y - p1.y) * (p2.x - p1.x)
    && Min(p1.x, p2.x) <= e.x <= Max(p1.x, p2.x)
  }

  /** The entry inserted for one limit: present exactly on a strict crossing, and then on the segment at the limit. */
  lemma {:induction false} LimitCrossingShape(p1: Point, p2: Point, limit: Option<real>, isGap: bool)
    ensures var c := LimitCrossing(p1, p2, limit, isGap);
      |c| == (if Crossed(p1, p2, limit) then 1 else 0)
      && (forall j :: 0 <= j < |c| ==>
            c[j].y == limit.value && c[j].isGap == isGap && !c[j].isSinglePoint && OnSegment(p1, p2, c[j]))
  {
    if Crossed(p1, p2, limit) {
      InterpolatedOnSegment(p1.x, p1.y, p2.x, p2.y, limit.value, isGap);
    }
  }

  /**
   * The entries inserted on one segment: one per strictly crossed limit, each on the
   * segment at the height of a crossed limit and carrying the segment's gap flag, in
   * ascending x order, and as a multiset exactly the top and the bottom crossing.
   */
  lemma {:induction false} CrossingsShape(p1: Point, p2: Point, top: Option<real>, bottom: Option<real>, isGap: bool)
    ensures |Crossings(p1, p2, top, bottom, isGap)|
      == (if Crossed(p1, p2, top) then 1 else 0) + (if Crossed(p1, p2, bottom) then 1 else 0)
    ensures var c := Crossings(p1, p2, top, bottom, isGap);
      forall j :: 0 <= j < |c| ==>
        c[j].isGap == isGap && !c[j].isSinglePoint && OnSegment(p1, p2, c[j])
        && ((Crossed(p1, p2, top) && c[j].y == top.value) || (Crossed(p1, p2, bottom) && c[j].y == bottom.value))
    ensures var c := Crossings(p1, p2, top, bottom, isGap);
      |c| == 2 ==> c[0].x <= c[1].x
    ensures multiset(Crossings(p1, p2, top, bottom, isGap))
      == multiset(LimitCrossing(p1, p2, top, isGap) + LimitCrossing(p1, p2, bottom, isGap))
  {
    LimitCrossingShape(p1, p2, top, isGap);
    LimitCrossingShape(p1, p2, bottom, isGap);
    var n1 := LimitCrossing(p1, p2, top, isGap);
    var n2 := LimitCrossing(p1, p2, bottom, isGap);
    var c := Crossings(p1, p2, top, bottom, isGap);
    if |n1| == 1 && |n2| == 1 {
      if n1[0].x < n2[0].x {
        assert c == [n1[0], n2[0]];
      } else {
        assert c == [n2[0], n1[0]];
        assert multiset(n2 + n1) == multiset(n1 + n2);
      }
    } else {
      assert c == n1 + n2;
      assert |n1| == 0 || |n2| == 0;
    }
  }

  /** The index at which raw entry i lands in the annotated list: after i raw entries and their crossings. */
  function Pos(pts: seq<Point>, cross: (Point, Point, bool) -> seq<GapPoint>, maxGap: real, i: nat): (r: nat)
    requires i < |pts|
    ensures r >= i
  {
    if i == 0 then 0 else Pos(pts, cross, maxGap, i - 1) + |CrossingsAt(pts, cross, maxGap, i)| + 1
  }

  /** Raw entries keep their order: Pos is strictly increasing. */
  lemma {:induction false} PosIncreasing(pts: seq<Point>, cross: (Point, Point, bool) -> seq<GapPoint>, maxGap: real, i: nat, j: nat)
    requires i < j < |pts|
    ensures Pos(pts, cross, maxGap, i) < Pos(pts, cross, maxGap, j)
    decreases j
  {
    if i < j - 1 {
      PosIncreasing(pts, cross, maxGap, i, j - 1);
    }
  }

  /** Whether the loop, after consuming k raw entries, has marked raw entry i as a single point. */
  predicate MarkedBefore(pts: seq<Point>, maxGap: real, k: nat, i: nat)
    requires i < k <= |pts|
  {
    i + 1 < k && GapAt(pts, maxGap, i) && GapAt(pts, maxGap, i + 1)
  }

  /** Extend leaves the earlier entries alone, may mark the previous last one, then appends c and the new entry. */
  lemma {:induction false} ExtendParts(prev: seq<GapPoint>, c: seq<GapPoint>, p2: Point, isGap: bool)
    requires |prev| > 0
    ensures var r := Extend(prev, c, p2, isGap);
      (forall j :: 0 <= j < |prev| - 1 ==> r[j] == prev[j])
      && r[|prev| - 1] == prev[|prev| - 1].(isSinglePoint := prev[|prev| - 1].isSinglePoint || (isGap && prev[|prev| - 1].isGap))
      && r[|prev|..|prev| + |c|] == c
      && r[|r| - 1] == GapPoint(p2.x, p2.y, isGap, false)
  {
    var r := Extend(prev, c, p2, isGap);
    var marked := if isGap && prev[|prev| - 1].isGap then MarkLast(prev) else prev;
    assert r == marked + c + [GapPoint(p2.x, p2.y, isGap, false)];
    assert r[|prev|..|prev| + |c|] == c;
  }

  /** After k raw entries the list ends at raw entry k - 1. */
  lemma {:induction false} BuildLength(pts: seq<Point>, cross: (Point, Point, bool) -> seq<GapPoint>, maxGap: real, k: nat)
    requires 1 <= k <= |pts|
    ensures |Build(pts, cross, maxGap, k)| == Pos(pts, cross, maxGap, k - 1) + 1
  {
    if k > 1 {
      BuildLength(pts, cross, maxGap, k - 1);
    }
  }

  /** Raw entry i sits at Pos(i) of b, with its coordinates, its gap flag and the single-point flag single. */
  predicate RawAt(b: seq<GapPoint>, pts: seq<Point>, cross: (Point, Point, bool) -> seq<GapPoint>, maxGap: real, i: nat, single: bool)
    requires i < |pts|
  {
    Pos(pts, cross, maxGap, i) < |b|
    && b[Pos(pts, cross, maxGap, i)] == GapPoint(pts[i].x, pts[i].y, GapAt(pts, maxGap, i), single)
  }

  /**
   * After k raw entries the list holds each raw entry i at Pos(i), with its coordinates,
   * its gap flag and a single-point mark exactly when it and its successor are gaps.
   */
  lemma BuildRaw(pts: seq<Point>, cross: (Point, Point, bool) -> seq<GapPoint>, maxGap: real, k: nat)
    requires 1 <= k <= |pts|
    ensures forall i :: 0 <= i < k ==>
      RawAt(Build(pts, cross, maxGap, k), pts, cross, maxGap, i, MarkedBefore(pts, maxGap, k, i))
  {
    forall i | 0 <= i < k
      ensures RawAt(Build(pts, cross, maxGap, k), pts, cross, maxGap, i, MarkedBefore(pts, maxGap, k, i))
    {
      BuildRawAt(pts, cross, maxGap, k, i);
    }
  }

  lemma {:induction false} BuildRawAt(pts: seq<Point>, cross: (Point, Point, bool) -> seq<GapPoint>, maxGap: real, k: nat, i: nat)
    requires i < k <= |pts|
    ensures RawAt(Build(pts, cross, maxGap, k), pts, cross, maxGap, i, MarkedBefore(pts, maxGap, k, i))
  {
    if i == k - 1 {
      RawAppended(pts, cross, maxGap, k);
    } else {
      BuildRawAt(pts, cross, maxGap, k - 1, i);
      RawKept(pts, cross, maxGap, k, i);
    }
  }

  /** The step to raw entry k - 1 appends it, unmarked, as the last entry. */
  lemma RawAppended(pts: seq<Point>, cross: (Point, Point, bool) -> seq<GapPoint>, maxGap: real, k: nat)
    requires 1 <= k <= |pts|
    ensures RawAt(Build(pts, cross, maxGap, k), pts, cross, maxGap, k - 1, MarkedBefore(pts, maxGap, k, k - 1))
  {
    BuildLength(pts, cross, maxGap, k);
    if k > 1 {
      var b := Build(pts, cross, maxGap, k - 1);
      var g := GapAt(pts, maxGap, k - 1);
      BuildStep(pts, cross, maxGap, k - 1, g);
      ExtendParts(b, CrossingsAt(pts, cross, maxGap, k - 1), pts[k - 1], g);
    }
  }

  /**
   * The step to raw entry k - 1 leaves the earlier raw entries where they were, and marks
   * raw entry k - 2 a single point exactly when it and raw entry k - 1 are gaps.
   */
  lemma RawKept(pts: seq<Point>, cross: (Point, Point, bool) -> seq<GapPoint>, maxGap: real, k: nat, i: nat)
    requires i < k - 1 && k <= |pts|
    requires RawAt(Build(pts, cross, maxGap, k - 1), pts, cross, maxGap, i, MarkedBefore(pts, maxGap, k - 1, i))
    ensures RawAt(Build(pts, cross, maxGap, k), pts, cross, maxGap, i, MarkedBefore(pts, maxGap, k, i))
  {
    BuildLength(pts, cross, maxGap, k - 1);
    var b := Build(pts, cross, maxGap, k - 1);
    var g := GapAt(pts, maxGap, k - 1);
    BuildStep(pts, cross, maxGap, k - 1, g);
    var c := CrossingsAt(pts, cross, maxGap, k - 1);
    var r := Build(pts, cross, maxGap, k);
    assert r == Extend(b, c, pts[k - 1], g);
    ExtendParts(b, c, pts[k - 1], g);
    var at := Pos(pts, cross, maxGap, i);
    var entry := b[at];
    assert entry == GapPoint(pts[i].x, pts[i].y, GapAt(pts, maxGap, i), MarkedBefore(pts, maxGap, k - 1, i));
    if i == k - 2 {
      assert at == |b| - 1;
      assert r[at] == entry.(isSinglePoint := entry.isSinglePoint || (g && entry.isGap));
    } else {
      PosIncreasing(pts, cross, maxGap, i, k - 2);
      assert at < |b| - 1;
      assert r[at] == entry;
      assert MarkedBefore(pts, maxGap, k, i) == MarkedBefore(pts, maxGap, k - 1, i);
    }
  }

  /** After k raw entries, the entries between raw entries i - 1 and i are those the crossing rule inserts there. */
  lemma BuildCrossings(pts: seq<Point>, cross: (Point, Point, bool) -> seq<GapPoint>, maxGap: real, k: nat)
    requires 1 <= k <= |pts|
    ensures forall i :: 1 <= i < k ==> CrossingsBetween(Build(pts, cross, maxGap, k), pts, cross, maxGap, i)
  {
    forall i | 1 <= i < k
      ensures CrossingsBetween(Build(pts, cross, maxGap, k), pts, cross, maxGap, i)
    {
      BuildCrossingsAt(pts, cross, maxGap, k, i);
    }
  }

  lemma {:induction false} BuildCrossingsAt(pts: seq<Point>, cross: (Point, Point, bool) -> seq<GapPoint>, maxGap: real, k: nat, i: nat)
    requires 1 <= i < k <= |pts|
    ensures CrossingsBetween(Build(pts, cross, maxGap, k), pts, cross, maxGap, i)
  {
    if i < k - 1 {
      BuildCrossingsAt(pts, cross, maxGap, k - 1, i);
      CrossingsKept(pts, cross, maxGap, k, i);
    } else {
      CrossingsAppended(pts, cross, maxGap, k);
    }
  }

  /** The step to raw entry k - 1 appends exactly the crossings of the segment ending there. */
  lemma CrossingsAppended(pts: seq<Point>, cross: (Point, Point, bool) -> seq<GapPoint>, maxGap: real, k: nat)
    requires 2 <= k <= |pts|
    ensures CrossingsBetween(Build(pts, cross, maxGap, k), pts, cross, maxGap, k - 1)
  {
    BuildLength(pts, cross, maxGap, k - 1);
    var b := Build(pts, cross, maxGap, k - 1);
    var g := GapAt(pts, maxGap, k - 1);
    BuildStep(pts, cross, maxGap, k - 1, g);
    var c := CrossingsAt(pts, cross, maxGap, k - 1);
    var r := Build(pts, cross, maxGap, k);
    assert r == Extend(b, c, pts[k - 1], g);
    ExtendParts(b, c, pts[k - 1], g);
    var lo := Pos(pts, cross, maxGap, k - 2) + 1;
    var hi := Pos(pts, cross, maxGap, k - 1);
    assert lo == |b| && hi == |b| + |c| && hi < |r|;
    assert r[lo..hi] == c;
  }

  /** The step to raw entry k - 1 leaves the crossings of earlier segments where they were. */
  lemma CrossingsKept(pts: seq<Point>, cross: (Point, Point, bool) -> seq<GapPoint>, maxGap: real, k: nat, i: nat)
    requires 1 <= i < k - 1 && k <= |pts|
    requires CrossingsBetween(Build(pts, cross, maxGap, k - 1), pts, cross, maxGap, i)
    ensures CrossingsBetween(Build(pts, cross, maxGap, k), pts, cross, maxGap, i)
  {
    BuildLength(pts, cross, maxGap, k - 1);
    var b := Build(pts, cross, maxGap, k - 1);
    var g := GapAt(pts, maxGap, k - 1);
    BuildStep(pts, cross, maxGap, k - 1, g);
    ExtendParts(b, CrossingsAt(pts, cross, maxGap, k - 1), pts[k - 1], g);
    if i < k - 2 {
      PosIncreasing(pts, cross, maxGap, i, k - 2);
    }
    KeptSlice(b, Build(pts, cross, maxGap, k), Pos(pts, cross, maxGap, i - 1) + 1, Pos(pts, cross, maxGap, i));
  }

  /** The entries of b between raw entries i - 1 and i (at Pos(i - 1) and Pos(i)) are the crossings of that segment. */
  predicate CrossingsBetween(b: seq<GapPoint>, pts: seq<Point>, cross: (Point, Point, bool) -> seq<GapPoint>, maxGap: real, i: nat)
    requires 1 <= i < |pts|
  {
    Pos(pts, cross, maxGap, i) < |b|
    && b[Pos(pts, cross, maxGap, i - 1) + 1..Pos(pts, cross, maxGap, i)] == CrossingsAt(pts, cross, maxGap, i)
  }

  lemma KeptSlice(b: seq<GapPoint>, b': seq<GapPoint>, lo: nat, hi: nat)
    requires lo <= hi < |b| <= |b'|
    requires forall j :: 0 <= j < |b| - 1 ==> b'[j] == b[j]
    ensures b'[lo..hi] == b[lo..hi]
  {
  }

  /** The annotator's crossing rule applied to the segment ending at raw entry i. */
  lemma CrossRuleAt(pts: seq<Point>, top: Option<real>, bottom: Option<real>, maxGap: real, i: nat)
    requires 1 <= i < |pts|
    ensures CrossingsAt(pts, CrossRule(top, bottom), maxGap, i) == Crossings(pts[i - 1], pts[i], top, bottom, GapAt(pts, maxGap, i))
  {
  }

  /** Every single point in s is a gap. */
  predicate SingleImpliesGap(s: seq<GapPoint>)
  {
    forall j :: 0 <= j < |s| ==> s[j].isSinglePoint ==> s[j].isGap
  }

  /** No entry of s after position from is a gap or a single point. */
  predicate NoGapsFrom(s: seq<GapPoint>, from: nat)
  {
    forall j :: from <= j < |s| ==> !s[j].isGap && !s[j].isSinglePoint
  }

  /** Every entry of c carries the gap flag g and is not a single point. */
  predicate AllFlagged(c: seq<GapPoint>, g: bool)
  {
    forall j :: 0 <= j < |c| ==> c[j].isGap == g && !c[j].isSinglePoint
  }

  /** The entries are in ascending x order. */
  predicate SortedByX(s: seq<GapPoint>)
  {
    forall j :: 1 <= j < |s| ==> s[j - 1].x <= s[j].x
  }

  /** Every entry of c has its x in [lo, hi]. */
  predicate WithinX(c: seq<GapPoint>, lo: real, hi: real)
  {
    forall j :: 0 <= j < |c| ==> lo <= c[j].x <= hi
  }

  /** What the later lemmas need of one segment's crossings. */
  lemma CrossingsFacts(p1: Point, p2: Point, top: Option<real>, bottom: Option<real>, isGap: bool)
    ensures var c := Crossings(p1, p2, top, bottom, isGap);
      AllFlagged(c, isGap) && SortedByX(c) && WithinX(c, Min(p1.x, p2.x), Max(p1.x, p2.x))
  {
    CrossingsShape(p1, p2, top, bottom, isGap);
  }

  /** Extend keeps single points gaps when the new entries are not single points. */
  lemma ExtendSingleImpliesGap(prev: seq<GapPoint>, c: seq<GapPoint>, p2: Point, isGap: bool)
    requires |prev| > 0 && SingleImpliesGap(prev) && AllFlagged(c, isGap)
    ensures SingleImpliesGap(Extend(prev, c, p2, isGap))
  {
    ExtendParts(prev, c, p2, isGap);
    var r := Extend(prev, c, p2, isGap);
    forall j | |prev| <= j < |prev| + |c|
      ensures r[j] == c[j - |prev|]
    {
      assert r[|prev|..|prev| + |c|][j - |prev|] == c[j - |prev|];
    }
  }

  /** Extend by a non-gap step whose crossings are not gaps adds no gap and no single point. */
  lemma ExtendNoGaps(prev: seq<GapPoint>, c: seq<GapPoint>, p2: Point, from: nat)
    requires 0 < from <= |prev| && NoGapsFrom(prev, from) && AllFlagged(c, false)
    ensures NoGapsFrom(Extend(prev, c, p2, false), from)
  {
    ExtendParts(prev, c, p2, false);
    var r := Extend(prev, c, p2, false);
    forall j | |prev| <= j < |prev| + |c|
      ensures r[j] == c[j - |prev|]
    {
      assert r[|prev|..|prev| + |c|][j - |prev|] == c[j - |prev|];
    }
  }

  /** Extend keeps ascending x order when the crossings lie, in order, between the old last x and the new x. */
  lemma ExtendSorted(prev: seq<GapPoint>, c: seq<GapPoint>, p2: Point, isGap: bool)
    requires |prev| > 0 && SortedByX(prev) && prev[|prev| - 1].x <= p2.x
    requires SortedByX(c) && WithinX(c, prev[|prev| - 1].x, p2.x)
    ensures var r := Extend(prev, c, p2, isGap);
      SortedByX(r) && r[|r| - 1].x == p2.x
  {
    ExtendParts(prev, c, p2, isGap);
    var r := Extend(prev, c, p2, isGap);
    forall j | |prev| <= j < |prev| + |c|
      ensures r[j] == c[j - |prev|]
    {
      assert r[|prev|..|prev| + |c|][j - |prev|] == c[j - |prev|];
    }
  }

  /** In the annotator's list a single point is always a gap. */
  lemma {:induction false} BuildSingleImpliesGap(pts: seq<Point>, top: Option<real>, bottom: Option<real>, maxGap: real, k: nat)
    requires 1 <= k <= |pts|
    ensures SingleImpliesGap(Build(pts, CrossRule(top, bottom), maxGap, k))
  {
    if k > 1 {
      BuildSingleImpliesGap(pts, top, bottom, maxGap, k - 1);
      var g := GapAt(pts, maxGap, k - 1);
      BuildStep(pts, CrossRule(top, bottom), maxGap, k - 1, g);
      CrossingsFacts(pts[k - 2], pts[k - 1], top, bottom, g);
      ExtendSingleImpliesGap(Build(pts, CrossRule(top, bottom), maxGap, k - 1), Crossings(pts[k - 2], pts[k - 1], top, bottom, g), pts[k - 1], g);
    }
  }

  /** The entry after a single point is a gap. */
  predicate SingleFollowedByGap(s: seq<GapPoint>)
  {
    forall j :: 1 <= j < |s| ==> s[j - 1].isSinglePoint ==> s[j].isGap
  }

  /**
   * Extend keeps the entry after a single point a gap: the previous last entry is marked
   * only on a gap step, and then the crossings and the new entry all carry the gap flag.
   */
  lemma ExtendSingleFollowedByGap(prev: seq<GapPoint>, c: seq<GapPoint>, p2: Point, isGap: bool)
    requires |prev| > 0 && SingleFollowedByGap(prev) && !prev[|prev| - 1].isSinglePoint && AllFlagged(c, isGap)
    ensures var r := Extend(prev, c, p2, isGap);
      SingleFollowedByGap(r) && !r[|r| - 1].isSinglePoint
  {
    ExtendParts(prev, c, p2, isGap);
    var r := Extend(prev, c, p2, isGap);
    forall j | |prev| <= j < |prev| + |c|
      ensures r[j] == c[j - |prev|]
    {
      assert r[|prev|..|prev| + |c|][j - |prev|] == c[j - |prev|];
    }
    forall j | 1 <= j < |r| && r[j - 1].isSinglePoint
      ensures r[j].isGap
    {
      if j < |prev| - 1 {
        assert r[j - 1] == prev[j - 1] && r[j] == prev[j];
      } else if j == |prev| - 1 {
        assert r[j - 1] == prev[j - 1];
      } else {
        assert j == |prev|;
      }
    }
  }

  /** In the annotator's list the entry after a single point is a gap, and the last entry is not yet marked. */
  lemma {:induction false} BuildSingleFollowedByGap(pts: seq<Point>, top: Option<real>, bottom: Option<real>, maxGap: real, k: nat)
    requires 1 <= k <= |pts|
    ensures var b := Build(pts, CrossRule(top, bottom), maxGap, k);
      SingleFollowedByGap(b) && !b[|b| - 1].isSinglePoint
  {
    if k > 1 {
      BuildSingleFollowedByGap(pts, top, bottom, maxGap, k - 1);
      var g := GapAt(pts, maxGap, k - 1);
      BuildStep(pts, CrossRule(top, bottom), maxGap, k - 1, g);
      CrossingsFacts(pts[k - 2], pts[k - 1], top, bottom, g);
      ExtendSingleFollowedByGap(Build(pts, CrossRule(top, bottom), maxGap, k - 1), Crossings(pts[k - 2], pts[k - 1], top, bottom, g), pts[k - 1], g);
    }
  }

  /** Without gaps in use (maxGap <= 0) no entry after the first is a gap or a single point. */
  lemma {:induction false} BuildNoGaps(pts: seq<Point>, top: Option<real>, bottom: Option<real>, maxGap: real, k: nat)
    requires 1 <= k <= |pts| && maxGap <= 0.0
    ensures NoGapsFrom(Build(pts, CrossRule(top, bottom), maxGap, k), 1)
  {
    if k > 1 {
      BuildNoGaps(pts, top, bottom, maxGap, k - 1);
      BuildStep(pts, CrossRule(top, bottom), maxGap, k - 1, false);
      CrossingsFacts(pts[k - 2], pts[k - 1], top, bottom, false);
      ExtendNoGaps(Build(pts, CrossRule(top, bottom), maxGap, k - 1), Crossings(pts[k - 2], pts[k - 1], top, bottom, false), pts[k - 1], 1);
    }
  }

  /** Raw entries in ascending x order give a list in ascending x order, ending at the last raw entry consumed. */
  lemma {:induction false} BuildSorted(pts: seq<Point>, top: Option<real>, bottom: Option<real>, maxGap: real, k: nat)
    requires 1 <= k <= |pts|
    requires forall i :: 1 <= i < |pts| ==> pts[i - 1].x <= pts[i].x
    ensures var b := Build(pts, CrossRule(top, bottom), maxGap, k);
      SortedByX(b) && b[|b| - 1].x == pts[k - 1].x
  {
    if k > 1 {
      BuildSorted(pts, top, bottom, maxGap, k - 1);
      var g := GapAt(pts, maxGap, k - 1);
      var prev := Build(pts, CrossRule(top, bottom), maxGap, k - 1);
      var c := Crossings(pts[k - 2], pts[k - 1], top, bottom, g);
      BuildStep(pts, CrossRule(top, bottom), maxGap, k - 1, g);
      assert Build(pts, CrossRule(top, bottom), maxGap, k) == Extend(prev, c, pts[k - 1], g);
      CrossingsFacts(pts[k - 2], pts[k - 1], top, bottom, g);
      assert prev[|prev| - 1].x <= pts[k - 1].x;
      ExtendSorted(prev, c, pts[k - 1], g);
    }
  }

  /** Whether raw entry i ends up a single point: it and its successor are gaps, or it is a gap and the last of several. */
  predicate SingleAt(pts: seq<Point>, maxGap: real, i: nat)
    requires i < |pts|
  {
    GapAt(pts, maxGap, i) && (if i + 1 < |pts| then GapAt(pts, maxGap, i + 1) else |pts| >= 2)
  }

  /** Annotate is the loop's list with only its last entry possibly marked. */
  lemma AnnotateParts(pts: seq<Point>, top: Option<real>, bottom: Option<real>, maxGap: real)
    requires |pts| >= 1
    ensures var b := Build(pts, CrossRule(top, bottom), maxGap, |pts|);
      var r := Annotate(pts, top, bottom, maxGap);
      |r| == |b|
      && (forall j :: 0 <= j < |b| - 1 ==> r[j] == b[j])
      && r[|b| - 1] == b[|b| - 1].(isSinglePoint := b[|b| - 1].isSinglePoint || (|pts| >= 2 && b[|b| - 1].isGap))
  {
  }

  /** Raw entry i sits at Pos(i) of the annotated list with its coordinates, its gap flag and its single-point flag. */
  lemma AnnotateRaw(pts: seq<Point>, top: Option<real>, bottom: Option<real>, maxGap: real)
    requires |pts| >= 1
    ensures forall i :: 0 <= i < |pts| ==>
      RawAt(Annotate(pts, top, bottom, maxGap), pts, CrossRule(top, bottom), maxGap, i, SingleAt(pts, maxGap, i))
  {
    forall i | 0 <= i < |pts|
      ensures RawAt(Annotate(pts, top, bottom, maxGap), pts, CrossRule(top, bottom), maxGap, i, SingleAt(pts, maxGap, i))
    {
      AnnotateRawAt(pts, top, bottom, maxGap, i);
    }
  }

  lemma AnnotateRawAt(pts: seq<Point>, top: Option<real>, bottom: Option<real>, maxGap: real, i: nat)
    requires i < |pts|
    ensures RawAt(Annotate(pts, top, bottom, maxGap), pts, CrossRule(top, bottom), maxGap, i, SingleAt(pts, maxGap, i))
  {
    var n := |pts|;
    var cross := CrossRule(top, bottom);
    var b := Build(pts, cross, maxGap, n);
    var r := Annotate(pts, top, bottom, maxGap);
    BuildLength(pts, cross, maxGap, n);
    BuildRaw(pts, cross, maxGap, n);
    AnnotateParts(pts, top, bottom, maxGap);
    assert RawAt(b, pts, cross, maxGap, i, MarkedBefore(pts, maxGap, n, i));
    var at := Pos(pts, cross, maxGap, i);
    if i < n - 1 {
      PosIncreasing(pts, cross, maxGap, i, n - 1);
      assert r[at] == b[at];
      assert MarkedBefore(pts, maxGap, n, i) == SingleAt(pts, maxGap, i);
    } else {
      assert at == |b| - 1;
      assert !MarkedBefore(pts, maxGap, n, i);
    }
  }

  /** Between raw entries i - 1 and i the annotated list holds exactly the crossings of that segment, and nothing follows the last raw entry. */
  lemma AnnotateCrossings(pts: seq<Point>, top: Option<real>, bottom: Option<real>, maxGap: real)
    requires |pts| >= 1
    ensures |Annotate(pts, top, bottom, maxGap)| == Pos(pts, CrossRule(top, bottom), maxGap, |pts| - 1) + 1
    ensures forall i :: 1 <= i < |pts| ==>
      CrossingsBetween(Annotate(pts, top, bottom, maxGap), pts, CrossRule(top, bottom), maxGap, i)
  {
    var n := |pts|;
    var cross := CrossRule(top, bottom);
    var b := Build(pts, cross, maxGap, n);
    var r := Annotate(pts, top, bottom, maxGap);
    BuildLength(pts, cross, maxGap, n);
    BuildCrossings(pts, cross, maxGap, n);
    AnnotateParts(pts, top, bottom, maxGap);
    forall i | 1 <= i < n
      ensures CrossingsBetween(r, pts, cross, maxGap, i)
    {
      assert CrossingsBetween(b, pts, cross, maxGap, i);
      KeptSlice(b, r, Pos(pts, cross, maxGap, i - 1) + 1, Pos(pts, cross, maxGap, i));
    }
  }

  /** An empty data set gives an empty list, and a single point gives one gap entry that is not a single point. */
  lemma AnnotateSmall(pts: seq<Point>, top: Option<real>, bottom: Option<real>, maxGap: real)
    ensures |pts| == 0 <==> Annotate(pts, top, bottom, maxGap) == []
    ensures |pts| == 1 ==> Annotate(pts, top, bottom, maxGap) == [GapPoint(pts[0].x, pts[0].y, true, false)]
  {
  }

  /** The first annotated entry is the first raw entry, and it is a gap. */
  lemma AnnotateFirst(pts: seq<Point>, top: Option<real>, bottom: Option<real>, maxGap: real)
    requires |pts| >= 1
    ensures var r := Annotate(pts, top, bottom, maxGap);
      r[0].x == pts[0].x && r[0].y == pts[0].y && r[0].isGap
  {
    AnnotateRaw(pts, top, bottom, maxGap);
    assert RawAt(Annotate(pts, top, bottom, maxGap), pts, CrossRule(top, bottom), maxGap, 0, SingleAt(pts, maxGap, 0));
  }

  /** In the annotated list every single point is a gap. */
  lemma AnnotateSingleImpliesGap(pts: seq<Point>, top: Option<real>, bottom: Option<real>, maxGap: real)
    ensures SingleImpliesGap(Annotate(pts, top, bottom, maxGap))
  {
    if |pts| >= 1 {
      BuildSingleImpliesGap(pts, top, bottom, maxGap, |pts|);
      AnnotateParts(pts, top, bottom, maxGap);
    }
  }

  /**
   * A single point is never the end of a solid pair: of every pair of neighbouring entries
   * with a single point at either end, the second entry is a gap.
   */
  lemma AnnotateSingleOnlyDotted(pts: seq<Point>, top: Option<real>, bottom: Option<real>, maxGap: real)
    ensures var r := Annotate(pts, top, bottom, maxGap);
      forall j :: 1 <= j < |r| ==> (r[j - 1].isSinglePoint || r[j].isSinglePoint) ==> r[j].isGap
  {
    var r := Annotate(pts, top, bottom, maxGap);
    AnnotateSingleImpliesGap(pts, top, bottom, maxGap);
    if |pts| >= 1 {
      var b := Build(pts, CrossRule(top, bottom), maxGap, |pts|);
      BuildSingleFollowedByGap(pts, top, bottom, maxGap, |pts|);
      AnnotateParts(pts, top, bottom, maxGap);
      forall j | 1 <= j < |r| && r[j - 1].isSinglePoint
        ensures r[j].isGap
      {
        assert r[j - 1] == b[j - 1];
        if j < |b| - 1 {
          assert r[j] == b[j];
        }
      }
    }
  }

  /** Every pair of the annotated list that touches a single point goes to a dotted buffer. */
  lemma AnnotateSinglePairsDotted(pts: seq<Point>, top: Option<real>, bottom: Option<real>, maxGap: real, j: nat)
    requires 1 <= j < |Annotate(pts, top, bottom, maxGap)|
    requires Annotate(pts, top, bottom, maxGap)[j - 1].isSinglePoint || Annotate(pts, top, bottom, maxGap)[j].isSinglePoint
    ensures var r := Annotate(pts, top, bottom, maxGap);
      PairKind(r[j - 1], r[j], top, bottom) in {Dotted, DottedLimit}
  {
    AnnotateSingleOnlyDotted(pts, top, bottom, maxGap);
  }

  /** Without gaps in use (maxGap <= 0) only the first entry is a gap, and no entry is a single point. */
  lemma AnnotateNoGaps(pts: seq<Point>, top: Option<real>, bottom: Option<real>, maxGap: real)
    requires maxGap <= 0.0
    ensures var r := Annotate(pts, top, bottom, maxGap);
      NoGapsFrom(r, 1) && (|r| > 0 ==> !r[0].isSinglePoint)
  {
    if |pts| >= 1 {
      BuildNoGaps(pts, top, bottom, maxGap, |pts|);
      AnnotateParts(pts, top, bottom, maxGap);
      AnnotateRaw(pts, top, bottom, maxGap);
      assert RawAt(Annotate(pts, top, bottom, maxGap), pts, CrossRule(top, bottom), maxGap, 0, SingleAt(pts, maxGap, 0));
    }
  }

  /** Raw entries in ascending x order give an annotated list in ascending x order. */
  lemma AnnotateSorted(pts: seq<Point>, top: Option<real>, bottom: Option<real>, maxGap: real)
    requires forall i :: 1 <= i < |pts| ==> pts[i - 1].x <= pts[i].x
    ensures SortedByX(Annotate(pts, top, bottom, maxGap))
  {
    if |pts| >= 1 {
      BuildSorted(pts, top, bottom, maxGap, |pts|);
      AnnotateParts(pts, top, bottom, maxGap);
    }
  }

  /** At most two entries are inserted per segment, so raw entry i sits at most at 3 * i. */
  lemma {:induction false} PosBound(pts: seq<Point>, top: Option<real>, bottom: Option<real>, maxGap: real, i: nat)
    requires i < |pts|
    ensures Pos(pts, CrossRule(top, bottom), maxGap, i) <= 3 * i
  {
    if i > 0 {
      PosBound(pts, top, bottom, maxGap, i - 1);
      CrossRuleAt(pts, top, bottom, maxGap, i);
    }
  }

  /** The annotated list holds every raw entry and at most two inserted entries per segment. */
  lemma AnnotateLength(pts: seq<Point>, top: Option<real>, bottom: Option<real>, maxGap: real)
    requires |pts| >= 1
    ensures |pts| <= |Annotate(pts, top, bottom, maxGap)| <= 3 * |pts| - 2
  {
    BuildLength(pts, CrossRule(top, bottom), maxGap, |pts|);
    AnnotateParts(pts, top, bottom, maxGap);
    PosBound(pts, top, bottom, maxGap, |pts| - 1);
  }

  /**
   * Every x-step of 1 exceeds a maximum gap of 0.5: every entry is a gap, and every
   * entry is a single point (the last one by the final mark).
   */
  lemma AllGapsExample()
    ensures Annotate([Point(0.0, 0.0), Point(1.0, 1.0), Point(2.0, 20.0), Point(3.0, 3.0)], None, None, 0.5)
      == [GapPoint(0.0, 0.0, true, true), GapPoint(1.0, 1.0, true, true),
          GapPoint(2.0, 20.0, true, true), GapPoint(3.0, 3.0, true, true)]
  {
    var pts := [Point(0.0, 0.0), Point(1.0, 1.0), Point(2.0, 20.0), Point(3.0, 3.0)];
    var cross := CrossRule(None, None);
    assert Build(pts, cross, 0.5, 2) == [GapPoint(0.0, 0.0, true, true), GapPoint(1.0, 1.0, true, false)];
    assert Build(pts, cross, 0.5, 3)
      == [GapPoint(0.0, 0.0, true, true), GapPoint(1.0, 1.0, true, true), GapPoint(2.0, 20.0, true, false)];
  }

  /**
   * The segment (0, 0)-(2, 10) crosses the bottom limit 2 at x = 0.4 before the top
   * limit 8 at x = 1.6: the bottom crossing comes first although it is computed second.
   */
  lemma CrossingOrderExample()
    ensures Annotate([Point(0.0, 0.0), Point(2.0, 10.0)], Some(8.0), Some(2.0), 0.0)
      == [GapPoint(0.0, 0.0, true, false), GapPoint(0.4, 2.0, false, false),
          GapPoint(1.6, 8.0, false, false), GapPoint(2.0, 10.0, false, false)]
  {
  }
}
