/**
 * The chunking loop of drawLinearFill. It walks the visible entries and closes a chunk
 * at every gap entry, after 128 entries, and at the last visible entry. A chunk with more
 * than one entry is filled: with the plain polygon when the limits are off, otherwise with
 * the in-band polygon and the overflow polygons above and below the limits that are
 * visible. A single point at a chunk boundary gets vertical stems instead.
 */
module FillChunks {
  import opened Options
  import opened GapEntries
  import opened Paths
  import opened Limits
  import opened FillPaths

  /** The values drawLinearFill reads before its loop. */
  datatype FillSetup = FillSetup(top: Option<real>, bottom: Option<real>, topY: real, bottomY: real, fillMin: real, phaseY: real)

  /** The top limit lies below the axis maximum. */
  predicate TopVisible(s: FillSetup)
  {
    s.top.Some? && s.top.value < s.topY
  }

  /** The bottom limit lies above the axis minimum. */
  predicate BottomVisible(s: FillSetup)
  {
    s.bottom.Some? && s.bottom.value > s.bottomY
  }

  /** The band between the limits overlaps the axis range. */
  predicate FillVisible(s: FillSetup)
  {
    LimitsEnabled(s.top, s.bottom) && s.topY >= s.bottom.value && s.bottomY <= s.top.value
  }

  /** The largest number of entry steps a chunk may take before it is closed. */
  const IndexInterval: nat := 128

  /**
   * What the loop hands to the canvas: a filled polygon over entries start .. end, or a
   * vertical stem at the single point `at`, from base to tip.
   */
  datatype FillDraw =
    | Polygon(kind: FillKind, start: nat, end: nat, cmds: seq<PathCmd>)
    | Stem(kind: FillKind, at: nat, x: real, base: real, tip: real)

  /** The loop closes a chunk at entry index: a gap, a full chunk, or the last visible entry. */
  predicate IsBoundary(es: seq<GapPoint>, endIndex: nat, index: nat, start: nat)
    requires index < |es|
  {
    es[index].isGap || index - start >= IndexInterval || index == endIndex
  }

  /** The last entry of the chunk closed at index: the entry before a gap, else index itself. */
  function ChunkEnd(es: seq<GapPoint>, index: nat): (end: nat)
    requires index < |es|
    ensures end <= index
    ensures es[index].isGap && index > 0 ==> end == index - 1
    ensures !es[index].isGap ==> end == index
  {
    if es[index].isGap then (if index >= 1 then index - 1 else 0) else index
  }

  /** The polygons drawn for the chunk start .. end. */
  function ChunkPolygons(es: seq<GapPoint>, s: FillSetup, start: nat, end: nat): (d: seq<FillDraw>)
    requires end < |es|
  {
    if start >= end then []
    else if LimitsEnabled(s.top, s.bottom) then
      (if FillVisible(s) then [Polygon(InBand, start, end, FillPath(es, start, end, InBand, s.top.value, s.bottom.value, s.fillMin, s.phaseY))] else [])
      + (if TopVisible(s) then [Polygon(TopOverflow, start, end, FillPath(es, start, end, TopOverflow, s.top.value, 0.0, s.fillMin, s.phaseY))] else [])
      + (if BottomVisible(s) then [Polygon(BottomOverflow, start, end, FillPath(es, start, end, BottomOverflow, 0.0, s.bottom.value, s.fillMin, s.phaseY))] else [])
    else [Polygon(Plain, start, end, FillPath(es, start, end, Plain, 0.0, 0.0, s.fillMin, s.phaseY))]
  }

  /** The stem through single point e above the top limit, when that limit is visible. */
  function TopStem(s: FillSetup, at: nat, e: GapPoint): seq<FillDraw>
    requires LimitsEnabled(s.top, s.bottom)
  {
    var base := Baseline(TopOverflow, s.top.value, 0.0, s.fillMin);
    if TopVisible(s) then [Stem(TopOverflow, at, e.x, base, Scale(Max(base, e.y), s.phaseY))] else []
  }

  /** The stem through single point e below the bottom limit, when that limit is visible. */
  function BottomStem(s: FillSetup, at: nat, e: GapPoint): seq<FillDraw>
    requires LimitsEnabled(s.top, s.bottom)
  {
    var base := Baseline(BottomOverflow, 0.0, s.bottom.value, s.fillMin);
    if BottomVisible(s) then [Stem(BottomOverflow, at, e.x, base, Scale(Min(s.bottom.value, e.y), s.phaseY))] else []
  }

  /** The stem through single point e inside the band, when the band is visible. */
  function BandStem(s: FillSetup, at: nat, e: GapPoint): seq<FillDraw>
    requires LimitsEnabled(s.top, s.bottom)
  {
    var base := Baseline(InBand, s.top.value, s.bottom.value, s.fillMin);
    if FillVisible(s) then [Stem(InBand, at, e.x, base, Scale(Max(base, LoopY(InBand, s.top.value, s.bottom.value, e.y)), s.phaseY))] else []
  }

  /** The stems drawn for entry at: none unless it is a single point. */
  function Stems(es: seq<GapPoint>, s: FillSetup, at: nat): (d: seq<FillDraw>)
    requires at < |es|
  {
    var e := es[at];
    if !e.isSinglePoint then []
    else if LimitsEnabled(s.top, s.bottom) then TopStem(s, at, e) + BottomStem(s, at, e) + BandStem(s, at, e)
    else [Stem(Plain, at, e.x, s.fillMin, Scale(e.y, s.phaseY))]
  }

  /**
   * What the loop draws from entry index to endIndex when the open chunk started at
   * entry start.
   */
  function FillFrom(es: seq<GapPoint>, s: FillSetup, endIndex: nat, index: nat, start: nat): seq<FillDraw>
    requires endIndex < |es| && index <= endIndex + 1
    decreases endIndex + 1 - index
  {
    if index > endIndex then []
    else if IsBoundary(es, endIndex, index, start) then
      ChunkPolygons(es, s, start, ChunkEnd(es, index)) + Stems(es, s, index) + FillFrom(es, s, endIndex, index + 1, index)
    else FillFrom(es, s, endIndex, index + 1, start)
  }

  /** Draws the polygons of one chunk with more than one entry, reusing the three path buffers. */
  method DrawChunk(es: seq<GapPoint>, s: FillSetup, start: nat, end: nat, filled: Path, topLimitFill: Path, bottomLimitFill: Path)
    returns (d: seq<FillDraw>)
    requires start < end < |es|
    modifies filled, topLimitFill, bottomLimitFill
    ensures d == ChunkPolygons(es, s, start, end)
  {
    d := [];
    if LimitsEnabled(s.top, s.bottom) {
      if FillVisible(s) {
        GenerateFilledForLimitsPath(es, start, end, s.top.value, s.bottom.value, s.fillMin, s.phaseY, filled);
        d := d + [Polygon(InBand, start, end, filled.cmds)];
      }
      if TopVisible(s) {
        GenerateTopLimitsPath(es, start, end, s.top.value, s.fillMin, s.phaseY, topLimitFill);
        d := d + [Polygon(TopOverflow, start, end, topLimitFill.cmds)];
      }
      if BottomVisible(s) {
        GenerateBottomLimitsPath(es, start, end, s.bottom.value, s.fillMin, s.phaseY, bottomLimitFill);
        d := d + [Polygon(BottomOverflow, start, end, bottomLimitFill.cmds)];
      }
    } else {
      GenerateFilledPath(es, start, end, s.fillMin, s.phaseY, filled);
      d := [Polygon(Plain, start, end, filled.cmds)];
    }
  }

  /** Draws the stems of the entry at a chunk boundary when it is a single point. */
  method DrawStems(es: seq<GapPoint>, s: FillSetup, at: nat) returns (d: seq<FillDraw>)
    requires at < |es|
    ensures d == Stems(es, s, at)
  {
    var e1 := es[at];
    d := [];
    if e1.isSinglePoint {
      if LimitsEnabled(s.top, s.bottom) {
        var dt := DrawTopStem(s, at, e1);
        var db := DrawBottomStem(s, at, e1);
        var df := DrawBandStem(s, at, e1);
        d := dt + db + df;
      } else {
        var tip := e1.y * s.phaseY;
        assert tip == Scale(e1.y, s.phaseY);
        d := [Stem(Plain, at, e1.x, s.fillMin, tip)];
      }
    }
  }

  method DrawTopStem(s: FillSetup, at: nat, e1: GapPoint) returns (d: seq<FillDraw>)
    requires LimitsEnabled(s.top, s.bottom)
    ensures d == TopStem(s, at, e1)
  {
    d := [];
    if TopVisible(s) {
      var limitFillLine := if s.top.value > s.fillMin then s.top.value else s.fillMin;
      var tip := Max(limitFillLine, e1.y) * s.phaseY;
      assert tip == Scale(Max(limitFillLine, e1.y), s.phaseY);
      d := [Stem(TopOverflow, at, e1.x, limitFillLine, tip)];
    }
  }

  method DrawBottomStem(s: FillSetup, at: nat, e1: GapPoint) returns (d: seq<FillDraw>)
    requires LimitsEnabled(s.top, s.bottom)
    ensures d == BottomStem(s, at, e1)
  {
    d := [];
    if BottomVisible(s) {
      var limitFillLine := if s.bottom.value > s.fillMin then s.fillMin else s.bottom.value;
      var tip := Min(s.bottom.value, e1.y) * s.phaseY;
      assert tip == Scale(Min(s.bottom.value, e1.y), s.phaseY);
      d := [Stem(BottomOverflow, at, e1.x, limitFillLine, tip)];
    }
  }

  method DrawBandStem(s: FillSetup, at: nat, e1: GapPoint) returns (d: seq<FillDraw>)
    requires LimitsEnabled(s.top, s.bottom)
    ensures d == BandStem(s, at, e1)
  {
    d := [];
    if FillVisible(s) {
      var topLimitLine, bottomLimitLine := s.top.value, s.bottom.value;
      var limitFillLine := if topLimitLine >= s.fillMin then Max(bottomLimitLine, s.fillMin) else topLimitLine;
      var y := e1.y;
      if y > topLimitLine {
        y := topLimitLine;
      } else if y < bottomLimitLine {
        y := bottomLimitLine;
      }
      assert y == LoopY(InBand, topLimitLine, bottomLimitLine, e1.y);
      var tip := Max(limitFillLine, y) * s.phaseY;
      assert tip == Scale(Max(limitFillLine, y), s.phaseY);
      d := [Stem(InBand, at, e1.x, limitFillLine, tip)];
    }
  }

  /** One iteration of the loop at entry index, with the open chunk started at start. */
  method FillStep(es: seq<GapPoint>, s: FillSetup, endIndex: nat, index: nat, start: nat,
                  filled: Path, topLimitFill: Path, bottomLimitFill: Path)
    returns (d: seq<FillDraw>, next: nat)
    requires index <= endIndex < |es| && start <= index && (start < index || start == 0)
    modifies filled, topLimitFill, bottomLimitFill
    ensures next == start || next == index
    ensures FillFrom(es, s, endIndex, index, start) == d + FillFrom(es, s, endIndex, index + 1, next)
  {
    var e1 := es[index];
    var breakInData := e1.isGap;
    d, next := [], start;
    if breakInData || index - start >= IndexInterval || index == endIndex {
      var currentEndIndex := ChunkEnd(es, index);
      if start != currentEndIndex {
        d := DrawChunk(es, s, start, currentEndIndex, filled, topLimitFill, bottomLimitFill);
      }
      var st := DrawStems(es, s, index);
      d := d + st;
      next := index;
    }
  }

  /**
   * drawLinearFill over the visible entries min .. min + range, with the limits of the
   * left axis (see Limits.ExtractLimits). The open chunk starts at entry 0, not at min.
   */
  method DrawLinearFill(es: seq<GapPoint>, top: Option<real>, bottom: Option<real>, topY: real, bottomY: real,
                        fillMin: real, phaseY: real, min: nat, range: nat,
                        filled: Path, topLimitFill: Path, bottomLimitFill: Path)
    returns (draws: seq<FillDraw>)
    requires min + range < |es|
    modifies filled, topLimitFill, bottomLimitFill
    ensures draws == FillFrom(es, FillSetup(top, bottom, topY, bottomY, fillMin, phaseY), min + range, min, 0)
  {
    var s := FillSetup(top, bottom, topY, bottomY, fillMin, phaseY);
    var endingIndex := min + range;
    var currentStartIndex: nat := 0;
    draws := [];
    var index := min;
    ghost var total := FillFrom(es, s, endingIndex, min, 0);
    while index <= endingIndex
      invariant min <= index <= endingIndex + 1
      invariant currentStartIndex < index || currentStartIndex == 0
      invariant currentStartIndex <= index
      invariant total == draws + FillFrom(es, s, endingIndex, index, currentStartIndex)
      decreases endingIndex + 1 - index
    {
      ghost var rest := FillFrom(es, s, endingIndex, index, currentStartIndex);
      var d, next := FillStep(es, s, endingIndex, index, currentStartIndex, filled, topLimitFill, bottomLimitFill);
      ghost var later := FillFrom(es, s, endingIndex, index + 1, next);
      assert draws + rest == (draws + d) + later;
      draws := draws + d;
      currentStartIndex := next;
      index := index + 1;
    }
    assert FillFrom(es, s, endingIndex, index, currentStartIndex) == [];
  }
}
