/**
 * Properties of the fill chunking: every polygon covers a run of entries without a gap
 * and of at most 128 steps, every stem stands on a single point and every visible single
 * point gets a stem, and every non-gap entry after the first is inside some polygon. The bound holds when the first chunk starts at
 * the first visible entry; the loop as written starts it at entry 0 and can break it.
 */
module FillChunkProps {
  import opened GapEntries
  import opened Limits
  import opened FillPaths
  import opened FillChunks

  /** A drawing respects the chunking: polygons over gap-free runs of at most 128 steps from lo on, stems on single points. */
  predicate GoodDraw(es: seq<GapPoint>, endIndex: nat, lo: nat, d: FillDraw)
    requires endIndex < |es|
  {
    match d
    case Polygon(_, start, end, _) =>
      lo <= start < end <= endIndex && end - start <= IndexInterval
      && forall j :: start < j <= end ==> !es[j].isGap
    case Stem(_, at, x, _, _) =>
      lo <= at <= endIndex && es[at].isSinglePoint && x == es[at].x
  }

  predicate AllGood(es: seq<GapPoint>, endIndex: nat, lo: nat, ds: seq<FillDraw>)
    requires endIndex < |es|
  {
    forall k :: 0 <= k < |ds| ==> GoodDraw(es, endIndex, lo, ds[k])
  }

  lemma AllGoodAppend(es: seq<GapPoint>, endIndex: nat, lo: nat, a: seq<FillDraw>, b: seq<FillDraw>)
    requires endIndex < |es|
    requires AllGood(es, endIndex, lo, a) && AllGood(es, endIndex, lo, b)
    ensures AllGood(es, endIndex, lo, a + b)
  {
    forall k | 0 <= k < |a + b|
      ensures GoodDraw(es, endIndex, lo, (a + b)[k])
    {
      if k < |a| {
        assert (a + b)[k] == a[k];
      } else {
        assert (a + b)[k] == b[k - |a|];
      }
    }
  }

  lemma AllGoodWeaken(es: seq<GapPoint>, endIndex: nat, lo: nat, lo2: nat, ds: seq<FillDraw>)
    requires endIndex < |es| && lo2 <= lo
    requires AllGood(es, endIndex, lo, ds)
    ensures AllGood(es, endIndex, lo2, ds)
  {
    forall k | 0 <= k < |ds|
      ensures GoodDraw(es, endIndex, lo2, ds[k])
    {
      assert GoodDraw(es, endIndex, lo, ds[k]);
    }
  }

  /** A chunk over a gap-free run of at most 128 steps draws only good polygons. */
  lemma ChunkGood(es: seq<GapPoint>, s: FillSetup, endIndex: nat, lo: nat, start: nat, end: nat)
    requires end <= endIndex < |es| && lo <= start
    requires end - start <= IndexInterval
    requires forall j :: start < j <= end ==> !es[j].isGap
    ensures AllGood(es, endIndex, lo, ChunkPolygons(es, s, start, end))
  {
  }

  /** Stems stand on the single point they are drawn for. */
  lemma StemsGood(es: seq<GapPoint>, s: FillSetup, endIndex: nat, lo: nat, at: nat)
    requires lo <= at <= endIndex < |es|
    ensures AllGood(es, endIndex, lo, Stems(es, s, at))
  {
  }

  /** Whatever the loop draws from index on respects the chunking, if the open chunk does so far. */
  lemma {:induction false} FillFromGood(es: seq<GapPoint>, s: FillSetup, endIndex: nat, index: nat, start: nat)
    requires endIndex < |es| && start <= index <= endIndex + 1
    requires index - start <= IndexInterval
    requires forall j :: start < j < index ==> !es[j].isGap
    ensures AllGood(es, endIndex, start, FillFrom(es, s, endIndex, index, start))
    decreases endIndex + 1 - index
  {
    if index <= endIndex {
      if IsBoundary(es, endIndex, index, start) {
        var end := ChunkEnd(es, index);
        ChunkGood(es, s, endIndex, start, start, end);
        StemsGood(es, s, endIndex, start, index);
        FillFromGood(es, s, endIndex, index + 1, index);
        AllGoodWeaken(es, endIndex, index, start, FillFrom(es, s, endIndex, index + 1, index));
        AllGoodAppend(es, endIndex, start, ChunkPolygons(es, s, start, end), Stems(es, s, index));
        AllGoodAppend(es, endIndex, start, ChunkPolygons(es, s, start, end) + Stems(es, s, index), FillFrom(es, s, endIndex, index + 1, index));
      } else {
        FillFromGood(es, s, endIndex, index + 1, start);
      }
    }
  }

  /**
   * With the first chunk opened at the first visible entry min, every polygon lies in the
   * visible range, spans at most 128 steps and crosses no gap.
   */
  lemma FromBoundsGood(es: seq<GapPoint>, s: FillSetup, min: nat, range: nat)
    requires min + range < |es|
    ensures AllGood(es, min + range, min, FillFrom(es, s, min + range, min, min))
  {
    FillFromGood(es, s, min + range, min, min);
  }

  /** The loop as written opens the first chunk at entry 0: fine only when no gap and no more than 128 entries precede min. */
  lemma AsWrittenGoodWhenShortPrefix(es: seq<GapPoint>, s: FillSetup, min: nat, range: nat)
    requires min + range < |es| && min <= IndexInterval
    requires forall j :: 0 < j < min ==> !es[j].isGap
    ensures AllGood(es, min + range, 0, FillFrom(es, s, min + range, min, 0))
  {
    FillFromGood(es, s, min + range, min, 0);
  }

  /**
   * The loop as written, with more than 128 entries before the first visible one: the
   * plain fill's first polygon runs from entry 0 to entry min, more than 128 steps.
   */
  lemma AsWrittenFirstChunkTooLong(es: seq<GapPoint>, s: FillSetup, min: nat, endIndex: nat)
    requires IndexInterval < min < endIndex < |es|
    requires !es[min].isGap && !LimitsEnabled(s.top, s.bottom)
    ensures |FillFrom(es, s, endIndex, min, 0)| > 0
    ensures FillFrom(es, s, endIndex, min, 0)[0] == Polygon(Plain, 0, min, FillPath(es, 0, min, Plain, 0.0, 0.0, s.fillMin, s.phaseY))
    ensures FillFrom(es, s, endIndex, min, 0)[0].end - FillFrom(es, s, endIndex, min, 0)[0].start > IndexInterval
  {
    assert IsBoundary(es, endIndex, min, 0);
    assert ChunkEnd(es, min) == min;
  }

  /** Some polygon of ds covers the step into entry j. */
  predicate Covered(ds: seq<FillDraw>, j: nat)
  {
    exists k :: 0 <= k < |ds| && ds[k].Polygon? && ds[k].start < j <= ds[k].end
  }

  /** The setup draws at least one polygon per chunk with more than one entry. */
  predicate FillsChunks(s: FillSetup)
  {
    !LimitsEnabled(s.top, s.bottom) || FillVisible(s) || TopVisible(s) || BottomVisible(s)
  }

  lemma ChunkCovers(es: seq<GapPoint>, s: FillSetup, start: nat, end: nat, j: nat)
    requires start < j <= end < |es| && FillsChunks(s)
    ensures Covered(ChunkPolygons(es, s, start, end), j)
  {
    var d := ChunkPolygons(es, s, start, end);
    assert d[0].Polygon? && d[0].start == start && d[0].end == end;
  }

  lemma CoveredLeft(a: seq<FillDraw>, b: seq<FillDraw>, j: nat)
    requires Covered(a, j)
    ensures Covered(a + b, j)
  {
    var k :| 0 <= k < |a| && a[k].Polygon? && a[k].start < j <= a[k].end;
    assert (a + b)[k] == a[k];
  }

  lemma CoveredRight(a: seq<FillDraw>, b: seq<FillDraw>, j: nat)
    requires Covered(b, j)
    ensures Covered(a + b, j)
  {
    var k :| 0 <= k < |b| && b[k].Polygon? && b[k].start < j <= b[k].end;
    assert (a + b)[|a| + k] == b[k];
  }

  /** Every non-gap entry after the open chunk's start lies in a polygon drawn from index on. */
  lemma {:induction false} FillFromCovers(es: seq<GapPoint>, s: FillSetup, endIndex: nat, index: nat, start: nat, j: nat)
    requires endIndex < |es| && start <= index <= endIndex && FillsChunks(s)
    requires start < j <= endIndex && !es[j].isGap
    ensures Covered(FillFrom(es, s, endIndex, index, start), j)
    decreases endIndex + 1 - index
  {
    if IsBoundary(es, endIndex, index, start) {
      var end := ChunkEnd(es, index);
      var rest := FillFrom(es, s, endIndex, index + 1, index);
      if j <= end {
        ChunkCovers(es, s, start, end, j);
        CoveredLeft(ChunkPolygons(es, s, start, end), Stems(es, s, index), j);
        CoveredLeft(ChunkPolygons(es, s, start, end) + Stems(es, s, index), rest, j);
      } else {
        FillFromCovers(es, s, endIndex, index + 1, index, j);
        CoveredRight(ChunkPolygons(es, s, start, end) + Stems(es, s, index), rest, j);
      }
    } else {
      FillFromCovers(es, s, endIndex, index + 1, start, j);
    }
  }

  /** Every non-gap entry of the visible range after its first lies in some polygon. */
  lemma FromBoundsCovers(es: seq<GapPoint>, s: FillSetup, min: nat, range: nat, j: nat)
    requires min + range < |es| && FillsChunks(s)
    requires min < j <= min + range && !es[j].isGap
    ensures Covered(FillFrom(es, s, min + range, min, min), j)
  {
    FillFromCovers(es, s, min + range, min, min, j);
  }

  /** As written, coverage holds too, from entry 0 on. */
  lemma AsWrittenCovers(es: seq<GapPoint>, s: FillSetup, min: nat, range: nat, j: nat)
    requires min + range < |es| && FillsChunks(s)
    requires 0 < j <= min + range && !es[j].isGap
    ensures Covered(FillFrom(es, s, min + range, min, 0), j)
  {
    FillFromCovers(es, s, min + range, min, 0, j);
  }

  /** Some stem of ds stands on entry j. */
  predicate Stemmed(ds: seq<FillDraw>, j: nat)
  {
    exists k :: 0 <= k < |ds| && ds[k].Stem? && ds[k].at == j
  }

  /** A setup that fills its chunks draws at least one stem on a single point. */
  lemma StemsDrawn(es: seq<GapPoint>, s: FillSetup, at: nat)
    requires at < |es| && es[at].isSinglePoint && FillsChunks(s)
    ensures Stemmed(Stems(es, s, at), at)
  {
    var d := Stems(es, s, at);
    if LimitsEnabled(s.top, s.bottom) {
      var t := TopStem(s, at, es[at]);
      var b := BottomStem(s, at, es[at]);
      var f := BandStem(s, at, es[at]);
      assert d == t + b + f;
      if |t| > 0 {
        assert d[0] == t[0];
      } else if |b| > 0 {
        assert d[0] == b[0];
      } else {
        assert d[0] == f[0];
      }
    } else {
      assert d[0].Stem? && d[0].at == at;
    }
  }

  lemma StemmedLeft(a: seq<FillDraw>, b: seq<FillDraw>, j: nat)
    requires Stemmed(a, j)
    ensures Stemmed(a + b, j)
  {
    var k :| 0 <= k < |a| && a[k].Stem? && a[k].at == j;
    assert (a + b)[k] == a[k];
  }

  lemma StemmedRight(a: seq<FillDraw>, b: seq<FillDraw>, j: nat)
    requires Stemmed(b, j)
    ensures Stemmed(a + b, j)
  {
    var k :| 0 <= k < |b| && b[k].Stem? && b[k].at == j;
    assert (a + b)[|a| + k] == b[k];
  }

  /**
   * Every single point the loop reaches gets its stems: a single point is a gap, so the
   * loop closes a chunk there and draws the stems for it.
   */
  lemma {:induction false} FillFromStems(es: seq<GapPoint>, s: FillSetup, endIndex: nat, index: nat, start: nat, j: nat)
    requires endIndex < |es| && start <= index <= j <= endIndex && FillsChunks(s)
    requires es[j].isGap && es[j].isSinglePoint
    ensures Stemmed(FillFrom(es, s, endIndex, index, start), j)
    decreases j - index
  {
    if IsBoundary(es, endIndex, index, start) {
      var end := ChunkEnd(es, index);
      var rest := FillFrom(es, s, endIndex, index + 1, index);
      if j == index {
        StemsDrawn(es, s, j);
        StemmedRight(ChunkPolygons(es, s, start, end), Stems(es, s, index), j);
        StemmedLeft(ChunkPolygons(es, s, start, end) + Stems(es, s, index), rest, j);
      } else {
        FillFromStems(es, s, endIndex, index + 1, index, j);
        StemmedRight(ChunkPolygons(es, s, start, end) + Stems(es, s, index), rest, j);
      }
    } else {
      FillFromStems(es, s, endIndex, index + 1, start, j);
    }
  }

  /** Every single point of the visible range, its first entry included, gets its stems. */
  lemma FromBoundsStems(es: seq<GapPoint>, s: FillSetup, min: nat, range: nat, j: nat)
    requires min + range < |es| && FillsChunks(s)
    requires min <= j <= min + range && es[j].isGap && es[j].isSinglePoint
    ensures Stemmed(FillFrom(es, s, min + range, min, min), j)
  {
    FillFromStems(es, s, min + range, min, min, j);
  }

  /** As written, with the first chunk opened at entry 0, every visible single point gets its stems too. */
  lemma AsWrittenStems(es: seq<GapPoint>, s: FillSetup, min: nat, range: nat, j: nat)
    requires min + range < |es| && FillsChunks(s)
    requires min <= j <= min + range && es[j].isGap && es[j].isSinglePoint
    ensures Stemmed(FillFrom(es, s, min + range, min, 0), j)
  {
    FillFromStems(es, s, min + range, min, 0, j);
  }
}
