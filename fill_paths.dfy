/**
 * The four fill-path generators of the line renderer (generateFilledPath,
 * generateFilledForLimitsPath, generateTopLimitsPath, generateBottomLimitsPath). Each
 * builds one closed polygon over the entries start .. end: down to its baseline at the
 * first entry, along the (clamped) entries, back to the baseline at the last entry, and
 * closed. The y values of the entries are scaled by the animation factor phaseY; the
 * baseline is not.
 */
module FillPaths {
  import opened GapEntries
  import opened Paths

  /** Which polygon: the plain fill, the fill inside the limit band, or the overflow above the top or below the bottom limit. */
  datatype FillKind = Plain | InBand | TopOverflow | BottomOverflow

  function Min(a: real, b: real): real { if a <= b then a else b }
  function Max(a: real, b: real): real { if a <= b then b else a }

  /**
   * The y at which the polygon starts and ends. The in-band baseline lies inside the band
   * and the overflow baselines lie on the far side of their limit from the band, never on
   * the wrong side of fillMin.
   */
  function Baseline(kind: FillKind, top: real, bottom: real, fillMin: real): (base: real)
    ensures kind == Plain ==> base == fillMin
    ensures kind == InBand && bottom <= top ==> bottom <= base <= top
    ensures kind == InBand && bottom <= fillMin <= top ==> base == fillMin
    ensures kind == TopOverflow ==> base >= top && base >= fillMin && (base == top || base == fillMin)
    ensures kind == BottomOverflow ==> base <= bottom && base <= fillMin && (base == bottom || base == fillMin)
  {
    match kind
    case Plain => fillMin
    case InBand => if top >= fillMin then Max(bottom, fillMin) else top
    case TopOverflow => if top > fillMin then top else fillMin
    case BottomOverflow => if bottom > fillMin then fillMin else bottom
  }

  /**
   * The y of the first entry's vertex, before phaseY. In the band it is clamped from
   * above only: an entry below the bottom limit keeps its y.
   */
  function FirstY(kind: FillKind, top: real, bottom: real, y: real): (r: real)
    ensures kind == Plain ==> r == y
    ensures kind == InBand && bottom <= top ==> r == Min(top, y)
    ensures kind == TopOverflow ==> r >= top && r >= y && (r == top || r == y)
    ensures kind == BottomOverflow ==> r <= bottom && r <= y && (r == bottom || r == y)
  {
    match kind
    case Plain => y
    case InBand => Min(Min(top, y), Max(bottom, y))
    case TopOverflow => Max(top, y)
    case BottomOverflow => Min(bottom, y)
  }

  /** The y of every later entry's vertex, before phaseY. In the band it is clamped on both sides. */
  function LoopY(kind: FillKind, top: real, bottom: real, y: real): (r: real)
    ensures kind == Plain ==> r == y
    ensures kind == InBand && bottom <= top ==> bottom <= r <= top && (bottom <= y <= top ==> r == y)
    ensures kind == TopOverflow ==> r >= top && r >= y && (r == top || r == y)
    ensures kind == BottomOverflow ==> r <= bottom && r <= y && (r == bottom || r == y)
  {
    match kind
    case Plain => y
    case InBand => if y > top then top else if y < bottom then bottom else y
    case TopOverflow => Max(top, y)
    case BottomOverflow => Min(bottom, y)
  }

  /** The vertex of the first entry: its x, and its y clamped by FirstY and scaled by phaseY. */
  function FirstVertex(e: GapPoint, kind: FillKind, top: real, bottom: real, phaseY: real): PathCmd
  {
    LineTo(e.x, FirstY(kind, top, bottom, e.y) * phaseY)
  }

  /** The vertex of one later entry: its x, and its clamped y scaled by phaseY. */
  function Vertex(e: GapPoint, kind: FillKind, top: real, bottom: real, phaseY: real): PathCmd
  {
    LineTo(e.x, LoopY(kind, top, bottom, e.y) * phaseY)
  }

  /** The vertices of the entries lo .. hi - 1, in order. */
  function Vertices(es: seq<GapPoint>, lo: nat, hi: nat, kind: FillKind, top: real, bottom: real, phaseY: real): (v: seq<PathCmd>)
    requires lo <= hi <= |es|
    ensures |v| == hi - lo
    decreases hi
  {
    if lo == hi then []
    else Vertices(es, lo, hi - 1, kind, top, bottom, phaseY) + [Vertex(es[hi - 1], kind, top, bottom, phaseY)]
  }

  /** The polygon a generator leaves in its path for the entries start .. end. */
  function FillPath(es: seq<GapPoint>, start: nat, end: nat, kind: FillKind, top: real, bottom: real, fillMin: real, phaseY: real): seq<PathCmd>
    requires start <= end < |es|
  {
    var base := Baseline(kind, top, bottom, fillMin);
    [MoveTo(es[start].x, base), FirstVertex(es[start], kind, top, bottom, phaseY)]
    + Vertices(es, start + 1, end + 1, kind, top, bottom, phaseY)
    + (if start < end then [LineTo(es[end].x, base)] else [])
    + [Close]
  }

  /** The loop shared by the generators: one vertex per entry start + 1 .. end. */
  method AppendVertices(path: Path, es: seq<GapPoint>, start: nat, end: nat, kind: FillKind, top: real, bottom: real, phaseY: real)
    requires start <= end < |es|
    modifies path
    ensures path.cmds == old(path.cmds) + Vertices(es, start + 1, end + 1, kind, top, bottom, phaseY)
  {
    ghost var before := path.cmds;
    for x := start + 1 to end + 1
      invariant path.cmds == before + Vertices(es, start + 1, x, kind, top, bottom, phaseY)
    {
      var currentEntry := es[x];
      path.LineTo(currentEntry.x, LoopY(kind, top, bottom, currentEntry.y) * phaseY);
      assert Vertex(currentEntry, kind, top, bottom, phaseY) == PathCmd.LineTo(currentEntry.x, LoopY(kind, top, bottom, currentEntry.y) * phaseY);
      assert Vertices(es, start + 1, x + 1, kind, top, bottom, phaseY)
        == Vertices(es, start + 1, x, kind, top, bottom, phaseY) + [Vertex(currentEntry, kind, top, bottom, phaseY)];
    }
  }

  /** The close-up shared by the generators: back to the baseline when a later entry exists, then close. */
  method CloseUp(path: Path, es: seq<GapPoint>, start: nat, end: nat, base: real)
    requires start <= end < |es|
    modifies path
    ensures path.cmds == old(path.cmds) + (if start < end then [LineTo(es[end].x, base)] else []) + [Close]
  {
    if start < end {
      path.LineTo(es[end].x, base);
    }
    path.Close();
  }

  /** generateFilledPath: the plain fill down to fillMin. */
  method GenerateFilledPath(es: seq<GapPoint>, start: nat, end: nat, fillMin: real, phaseY: real, path: Path)
    requires start <= end < |es|
    modifies path
    ensures path.cmds == FillPath(es, start, end, Plain, 0.0, 0.0, fillMin, phaseY)
  {
    path.Reset();
    var entry := es[start];
    path.MoveTo(entry.x, fillMin);
    path.LineTo(entry.x, entry.y * phaseY);
    assert FirstY(Plain, 0.0, 0.0, entry.y) * phaseY == entry.y * phaseY;
    assert FirstVertex(entry, Plain, 0.0, 0.0, phaseY) == PathCmd.LineTo(entry.x, entry.y * phaseY);
    AppendVertices(path, es, start, end, Plain, 0.0, 0.0, phaseY);
    CloseUp(path, es, start, end, fillMin);
  }

  /** generateFilledForLimitsPath: the fill inside the band [bottom, top]. */
  method GenerateFilledForLimitsPath(es: seq<GapPoint>, start: nat, end: nat, top: real, bottom: real, fillMin: real, phaseY: real, path: Path)
    requires start <= end < |es|
    modifies path
    ensures path.cmds == FillPath(es, start, end, InBand, top, bottom, fillMin, phaseY)
  {
    path.Reset();
    var limitFillLine := if top >= fillMin then Max(bottom, fillMin) else top;
    var entry := es[start];
    path.MoveTo(entry.x, limitFillLine);
    var pointY := Min(Min(top, entry.y), Max(bottom, entry.y));
    path.LineTo(entry.x, pointY * phaseY);
    assert FirstY(InBand, top, bottom, entry.y) * phaseY == pointY * phaseY;
    assert FirstVertex(entry, InBand, top, bottom, phaseY) == PathCmd.LineTo(entry.x, pointY * phaseY);
    AppendVertices(path, es, start, end, InBand, top, bottom, phaseY);
    CloseUp(path, es, start, end, limitFillLine);
  }

  /** generateTopLimitsPath: the overflow above the top limit. */
  method GenerateTopLimitsPath(es: seq<GapPoint>, start: nat, end: nat, top: real, fillMin: real, phaseY: real, path: Path)
    requires start <= end < |es|
    modifies path
    ensures path.cmds == FillPath(es, start, end, TopOverflow, top, 0.0, fillMin, phaseY)
  {
    path.Reset();
    var limitFillLine := if top > fillMin then top else fillMin;
    var entry := es[start];
    path.MoveTo(entry.x, limitFillLine);
    var pointY := Max(top, entry.y);
    path.LineTo(entry.x, pointY * phaseY);
    assert FirstY(TopOverflow, top, 0.0, entry.y) * phaseY == pointY * phaseY;
    assert FirstVertex(entry, TopOverflow, top, 0.0, phaseY) == PathCmd.LineTo(entry.x, pointY * phaseY);
    AppendVertices(path, es, start, end, TopOverflow, top, 0.0, phaseY);
    CloseUp(path, es, start, end, limitFillLine);
  }

  /** generateBottomLimitsPath: the overflow below the bottom limit. */
  method GenerateBottomLimitsPath(es: seq<GapPoint>, start: nat, end: nat, bottom: real, fillMin: real, phaseY: real, path: Path)
    requires start <= end < |es|
    modifies path
    ensures path.cmds == FillPath(es, start, end, BottomOverflow, 0.0, bottom, fillMin, phaseY)
  {
    path.Reset();
    var limitFillLine := if bottom > fillMin then fillMin else bottom;
    var entry := es[start];
    path.MoveTo(entry.x, limitFillLine);
    var pointY := Min(bottom, entry.y);
    path.LineTo(entry.x, pointY * phaseY);
    assert FirstY(BottomOverflow, 0.0, bottom, entry.y) * phaseY == pointY * phaseY;
    assert FirstVertex(entry, BottomOverflow, 0.0, bottom, phaseY) == PathCmd.LineTo(entry.x, pointY * phaseY);
    AppendVertices(path, es, start, end, BottomOverflow, 0.0, bottom, phaseY);
    CloseUp(path, es, start, end, limitFillLine);
  }

  /** Vertex k of Vertices(lo, hi) belongs to entry lo + k. */
  lemma {:induction false} VerticesAt(es: seq<GapPoint>, lo: nat, hi: nat, kind: FillKind, top: real, bottom: real, phaseY: real)
    requires lo <= hi <= |es|
    ensures forall k :: 0 <= k < hi - lo ==>
      Vertices(es, lo, hi, kind, top, bottom, phaseY)[k] == Vertex(es[lo + k], kind, top, bottom, phaseY)
  {
    if lo < hi {
      VerticesAt(es, lo, hi - 1, kind, top, bottom, phaseY);
    }
  }

  /**
   * A fill polygon: it starts on its baseline below the first entry, has one vertex per
   * entry start .. end in order, returns to its baseline below the last entry when there
   * is more than one entry, and closes.
   */
  lemma FillPathShape(es: seq<GapPoint>, start: nat, end: nat, kind: FillKind, top: real, bottom: real, fillMin: real, phaseY: real)
    requires start <= end < |es|
    ensures |FillPath(es, start, end, kind, top, bottom, fillMin, phaseY)| == end - start + 3 + (if start < end then 1 else 0)
    ensures FillPath(es, start, end, kind, top, bottom, fillMin, phaseY)[0] == MoveTo(es[start].x, Baseline(kind, top, bottom, fillMin))
    ensures FillPath(es, start, end, kind, top, bottom, fillMin, phaseY)[1] == FirstVertex(es[start], kind, top, bottom, phaseY)
    ensures forall j :: start < j <= end ==>
      FillPath(es, start, end, kind, top, bottom, fillMin, phaseY)[j - start + 1] == Vertex(es[j], kind, top, bottom, phaseY)
    ensures start < end ==>
      FillPath(es, start, end, kind, top, bottom, fillMin, phaseY)[end - start + 2] == LineTo(es[end].x, Baseline(kind, top, bottom, fillMin))
    ensures FillPath(es, start, end, kind, top, bottom, fillMin, phaseY)[end - start + 2 + (if start < end then 1 else 0)] == Close
  {
    var p := FillPath(es, start, end, kind, top, bottom, fillMin, phaseY);
    var head := [MoveTo(es[start].x, Baseline(kind, top, bottom, fillMin)), FirstVertex(es[start], kind, top, bottom, phaseY)];
    var mid := Vertices(es, start + 1, end + 1, kind, top, bottom, phaseY);
    var tail := (if start < end then [LineTo(es[end].x, Baseline(kind, top, bottom, fillMin))] else []) + [Close];
    assert p == head + mid + tail;
    VerticesAt(es, start + 1, end + 1, kind, top, bottom, phaseY);
    forall j | start < j <= end
      ensures p[j - start + 1] == Vertex(es[j], kind, top, bottom, phaseY)
    {
      assert p[j - start + 1] == mid[j - start - 1];
    }
  }
}
