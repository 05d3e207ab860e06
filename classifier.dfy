/**
 * The pair classifier of drawLinear: each consecutive pair of annotated entries in the
 * visible range [min, min + range] goes into one of four line buffers (solid, solid in
 * the limit colour, dotted, dotted in the limit colour), and the first entry when it is
 * a single point, plus every gap entry met as a pair's second end, is queued as a dot.
 */
module Classifier {
  import opened Options
  import opened GapEntries
  import opened LineBuffers
  import opened Limits

  /** The four line styles of drawLinear, one buffer each. */
  datatype LineKind = Solid | SolidLimit | Dotted | DottedLimit

  /** A y value strictly outside the band [bottom, top]. */
  predicate OutOfBand(y: real, top: real, bottom: real)
  {
    y > top || y < bottom
  }

  /**
   * The buffer the pair (e1, e2) goes to: a limit buffer exactly when the limits are
   * enabled and an end lies strictly outside the band, a dotted buffer exactly when the
   * second entry is a gap.
   */
  function PairKind(e1: GapPoint, e2: GapPoint, top: Option<real>, bottom: Option<real>): (k: LineKind)
    ensures (k == SolidLimit || k == DottedLimit) <==>
      (LimitsEnabled(top, bottom) && (OutOfBand(e1.y, top.value, bottom.value) || OutOfBand(e2.y, top.value, bottom.value)))
    ensures (k == Dotted || k == DottedLimit) <==> e2.isGap
  {
    if LimitsEnabled(top, bottom) then
      if e1.y > top.value || e1.y < bottom.value || e2.y > top.value || e2.y < bottom.value then
        (if e2.isGap then DottedLimit else SolidLimit)
      else (if e2.isGap then Dotted else Solid)
    else (if e2.isGap then Dotted else Solid)
  }

  /** A dot is drawn in the limit colour when the limits are enabled and it lies on or outside the band. */
  predicate DotInLimitColour(y: real, top: Option<real>, bottom: Option<real>)
  {
    LimitsEnabled(top, bottom) && (y >= top.value || y <= bottom.value)
  }

  /** The floats buffer kind holds once the pairs ending at lo + 1 .. hi have been classified. */
  function KindFloats(es: seq<GapPoint>, lo: nat, hi: nat, top: Option<real>, bottom: Option<real>, kind: LineKind, phaseY: real): (f: seq<real>)
    requires lo <= hi < |es|
    ensures |f| == 4 * KindCount(es, lo, hi, top, bottom, kind)
    decreases hi
  {
    if hi == lo then []
    else
      KindFloats(es, lo, hi - 1, top, bottom, kind, phaseY)
      + (if PairKind(es[hi - 1], es[hi], top, bottom) == kind then SegmentFloats(es[hi - 1], es[hi], phaseY) else [])
  }

  /** How many of the pairs ending at lo + 1 .. hi are of kind. */
  function KindCount(es: seq<GapPoint>, lo: nat, hi: nat, top: Option<real>, bottom: Option<real>, kind: LineKind): (n: nat)
    requires lo <= hi < |es|
    ensures n <= hi - lo
    decreases hi
  {
    if hi == lo then 0
    else KindCount(es, lo, hi - 1, top, bottom, kind) + (if PairKind(es[hi - 1], es[hi], top, bottom) == kind then 1 else 0)
  }

  /** The dots queued once the pairs ending at lo + 1 .. hi have been visited. */
  function Dots(es: seq<GapPoint>, lo: nat, hi: nat): (d: seq<GapPoint>)
    requires lo <= hi < |es|
    decreases hi
  {
    if hi == lo then (if es[lo].isSinglePoint then [es[lo]] else [])
    else Dots(es, lo, hi - 1) + (if es[hi].isGap then [es[hi]] else [])
  }

  /** The four buffers and their arrays are different objects, so writing one leaves the others alone. */
  ghost predicate Separate(line: LineBuffer, lineLimit: LineBuffer, dotted: LineBuffer, dottedLimit: LineBuffer)
    reads line, lineLimit, dotted, dottedLimit
  {
    line != lineLimit && line != dotted && line != dottedLimit
    && lineLimit != dotted && lineLimit != dottedLimit && dotted != dottedLimit
    && line.buffer != lineLimit.buffer && line.buffer != dotted.buffer && line.buffer != dottedLimit.buffer
    && lineLimit.buffer != dotted.buffer && lineLimit.buffer != dottedLimit.buffer && dotted.buffer != dottedLimit.buffer
  }

  /** The buffer of the four that holds kind. */
  function BufferOf(kind: LineKind, line: LineBuffer, lineLimit: LineBuffer, dotted: LineBuffer, dottedLimit: LineBuffer): LineBuffer
  {
    match kind
    case Solid => line
    case SolidLimit => lineLimit
    case Dotted => dotted
    case DottedLimit => dottedLimit
  }

  /** Every buffer holds the floats of its kind for the pairs ending at lo + 1 .. hi. */
  ghost predicate Holds(b: LineBuffer, es: seq<GapPoint>, lo: nat, hi: nat, top: Option<real>, bottom: Option<real>, kind: LineKind, phaseY: real)
    reads b, b.buffer
    requires lo <= hi < |es|
  {
    b.Valid() && b.pointsPerEntryPair == 2 && b.buffer.Length == |es| * 8
    && b.Floats() == KindFloats(es, lo, hi, top, bottom, kind, phaseY)
    && b.sectionCount == KindCount(es, lo, hi, top, bottom, kind)
  }

  /** The four buffers hold, each, the floats of their kind for the pairs ending at lo + 1 .. hi. */
  ghost predicate AllHold(line: LineBuffer, lineLimit: LineBuffer, dotted: LineBuffer, dottedLimit: LineBuffer,
                          es: seq<GapPoint>, lo: nat, hi: nat, top: Option<real>, bottom: Option<real>, phaseY: real)
    reads line, line.buffer, lineLimit, lineLimit.buffer, dotted, dotted.buffer, dottedLimit, dottedLimit.buffer
    requires lo <= hi < |es|
  {
    Holds(line, es, lo, hi, top, bottom, Solid, phaseY)
    && Holds(lineLimit, es, lo, hi, top, bottom, SolidLimit, phaseY)
    && Holds(dotted, es, lo, hi, top, bottom, Dotted, phaseY)
    && Holds(dottedLimit, es, lo, hi, top, bottom, DottedLimit, phaseY)
  }

  /** One iteration of the classifying loop: the pair ending at hi goes into the buffer of its kind. */
  method AddPair(es: seq<GapPoint>, lo: nat, hi: nat, e1: GapPoint, e2: GapPoint, top: Option<real>, bottom: Option<real>,
                 phaseY: real, line: LineBuffer, lineLimit: LineBuffer, dotted: LineBuffer, dottedLimit: LineBuffer)
    requires lo < hi < |es| && e1 == es[hi - 1] && e2 == es[hi]
    requires Separate(line, lineLimit, dotted, dottedLimit)
    requires AllHold(line, lineLimit, dotted, dottedLimit, es, lo, hi - 1, top, bottom, phaseY)
    modifies line, line.buffer, lineLimit, lineLimit.buffer, dotted, dotted.buffer, dottedLimit, dottedLimit.buffer
    ensures AllHold(line, lineLimit, dotted, dottedLimit, es, lo, hi, top, bottom, phaseY)
  {
    var kind := PairKind(e1, e2, top, bottom);
    var b := BufferOf(kind, line, lineLimit, dotted, dottedLimit);
    AddTo(b, es, lo, hi, e1, e2, top, bottom, kind, phaseY);
    Skipped(line, es, lo, hi, top, bottom, Solid, phaseY);
    Skipped(lineLimit, es, lo, hi, top, bottom, SolidLimit, phaseY);
    Skipped(dotted, es, lo, hi, top, bottom, Dotted, phaseY);
    Skipped(dottedLimit, es, lo, hi, top, bottom, DottedLimit, phaseY);
  }

  /** The buffer of the pair's kind takes the pair; there is always room for it. */
  method AddTo(b: LineBuffer, es: seq<GapPoint>, lo: nat, hi: nat, e1: GapPoint, e2: GapPoint, top: Option<real>, bottom: Option<real>,
               kind: LineKind, phaseY: real)
    requires lo < hi < |es| && e1 == es[hi - 1] && e2 == es[hi] && PairKind(e1, e2, top, bottom) == kind
    requires Holds(b, es, lo, hi - 1, top, bottom, kind, phaseY)
    modifies b, b.buffer
    ensures Holds(b, es, lo, hi, top, bottom, kind, phaseY)
  {
    assert b.index + 4 <= b.buffer.Length by {
      assert b.sectionCount <= hi - 1 - lo;
    }
    b.Add(e1, e2, phaseY);
  }

  /** A buffer of another kind than the pair's stays as it is and still holds its kind. */
  lemma Skipped(b: LineBuffer, es: seq<GapPoint>, lo: nat, hi: nat, top: Option<real>, bottom: Option<real>, kind: LineKind, phaseY: real)
    requires lo < hi < |es|
    requires PairKind(es[hi - 1], es[hi], top, bottom) == kind || Holds(b, es, lo, hi - 1, top, bottom, kind, phaseY)
    ensures PairKind(es[hi - 1], es[hi], top, bottom) == kind || Holds(b, es, lo, hi, top, bottom, kind, phaseY)
  {
  }

  /**
   * The classifying loop of drawLinear over the visible range [min, min + range] of the
   * annotated entries: four fresh buffers sized for every entry, each ending with the
   * floats of the pairs of its kind, and the queued dots.
   */
  method ClassifySegments(es: seq<GapPoint>, min: nat, range: nat, top: Option<real>, bottom: Option<real>, phaseY: real)
    returns (line: LineBuffer, lineLimit: LineBuffer, dotted: LineBuffer, dottedLimit: LineBuffer, dots: seq<GapPoint>)
    requires min + range < |es|
    ensures fresh(line) && fresh(lineLimit) && fresh(dotted) && fresh(dottedLimit)
    ensures Separate(line, lineLimit, dotted, dottedLimit)
    ensures AllHold(line, lineLimit, dotted, dottedLimit, es, min, min + range, top, bottom, phaseY)
    ensures dots == Dots(es, min, min + range)
  {
    line := new LineBuffer(|es|, 2);
    lineLimit := new LineBuffer(|es|, 2);
    dotted := new LineBuffer(|es|, 2);
    dottedLimit := new LineBuffer(|es|, 2);
    var e1 := es[min];
    dots := [];
    if e1.isSinglePoint {
      dots := dots + [e1];
    }
    dots := ClassifyRange(es, min, range, top, bottom, phaseY, line, lineLimit, dotted, dottedLimit, dots);
  }

  /** The loop itself, over buffers that hold nothing yet and the dots queued before it. */
  method ClassifyRange(es: seq<GapPoint>, min: nat, range: nat, top: Option<real>, bottom: Option<real>, phaseY: real,
                       line: LineBuffer, lineLimit: LineBuffer, dotted: LineBuffer, dottedLimit: LineBuffer, dots0: seq<GapPoint>)
    returns (dots: seq<GapPoint>)
    requires min + range < |es|
    requires Separate(line, lineLimit, dotted, dottedLimit)
    requires AllHold(line, lineLimit, dotted, dottedLimit, es, min, min, top, bottom, phaseY)
    requires dots0 == Dots(es, min, min)
    modifies line, line.buffer, lineLimit, lineLimit.buffer, dotted, dotted.buffer, dottedLimit, dottedLimit.buffer
    ensures AllHold(line, lineLimit, dotted, dottedLimit, es, min, min + range, top, bottom, phaseY)
    ensures dots == Dots(es, min, min + range)
  {
    dots := dots0;
    var e1 := es[min];
    var x := min + 1;
    ghost var done := min;
    while x <= range + min
      invariant min <= done <= min + range && x == done + 1
      invariant AllHold(line, lineLimit, dotted, dottedLimit, es, min, done, top, bottom, phaseY)
      invariant e1 == es[done]
      invariant dots == Dots(es, min, done)
    {
      var e2 := es[x];
      AddPair(es, min, x, e1, e2, top, bottom, phaseY, line, lineLimit, dotted, dottedLimit);
      if e2.isGap {
        dots := dots + [e2];
      }
      e1 := e2;
      done := x;
      x := x + 1;
    }
  }

  /** Every pair of the range goes to exactly one buffer: the four counts add up to the number of pairs. */
  lemma {:induction false} KindCountsPartition(es: seq<GapPoint>, lo: nat, hi: nat, top: Option<real>, bottom: Option<real>)
    requires lo <= hi < |es|
    ensures KindCount(es, lo, hi, top, bottom, Solid) + KindCount(es, lo, hi, top, bottom, SolidLimit)
      + KindCount(es, lo, hi, top, bottom, Dotted) + KindCount(es, lo, hi, top, bottom, DottedLimit) == hi - lo
  {
    if hi > lo {
      KindCountsPartition(es, lo, hi - 1, top, bottom);
    }
  }

  /** With the limits disabled the two limit buffers are never written. */
  lemma {:induction false} NoLimitPairsWhenDisabled(es: seq<GapPoint>, lo: nat, hi: nat, top: Option<real>, bottom: Option<real>, phaseY: real)
    requires lo <= hi < |es| && !LimitsEnabled(top, bottom)
    ensures KindFloats(es, lo, hi, top, bottom, SolidLimit, phaseY) == []
    ensures KindFloats(es, lo, hi, top, bottom, DottedLimit, phaseY) == []
  {
    if hi > lo {
      NoLimitPairsWhenDisabled(es, lo, hi - 1, top, bottom, phaseY);
    }
  }

  /** Without a gap entry among the second ends, the two dotted buffers are never written. */
  lemma {:induction false} NoDottedPairsWithoutGaps(es: seq<GapPoint>, lo: nat, hi: nat, top: Option<real>, bottom: Option<real>, phaseY: real)
    requires lo <= hi < |es|
    requires forall j :: lo < j <= hi ==> !es[j].isGap
    ensures KindFloats(es, lo, hi, top, bottom, Dotted, phaseY) == []
    ensures KindFloats(es, lo, hi, top, bottom, DottedLimit, phaseY) == []
  {
    if hi > lo {
      NoDottedPairsWithoutGaps(es, lo, hi - 1, top, bottom, phaseY);
    }
  }

  /** Entry j is queued as a dot: the first entry when it is a single point, a later one when it is a gap. */
  predicate DotSelected(es: seq<GapPoint>, lo: nat, j: nat)
    requires lo <= j < |es|
  {
    if j == lo then es[lo].isSinglePoint else es[j].isGap
  }

  /**
   * idx lists, in strictly increasing order, the indices in lo .. hi of the entries of d,
   * and an index appears in it exactly when its entry is queued.
   */
  predicate DotIndexing(es: seq<GapPoint>, lo: nat, hi: nat, d: seq<GapPoint>, idx: seq<nat>)
    requires lo <= hi < |es|
  {
    |idx| == |d|
    && (forall k :: 0 <= k < |idx| ==> lo <= idx[k] <= hi && d[k] == es[idx[k]])
    && (forall k :: 0 < k < |idx| ==> idx[k - 1] < idx[k])
    && (forall j :: lo <= j <= hi ==> (j in idx <==> DotSelected(es, lo, j)))
  }

  /** The indices of the queued dots, in the order the loop visits them. */
  ghost function DotIndices(es: seq<GapPoint>, lo: nat, hi: nat): (idx: seq<nat>)
    requires lo <= hi < |es|
    ensures forall k :: 0 <= k < |idx| ==> lo <= idx[k] <= hi
    decreases hi
  {
    if hi == lo then (if es[lo].isSinglePoint then [lo] else [])
    else DotIndices(es, lo, hi - 1) + (if es[hi].isGap then [hi] else [])
  }

  /** One loop step keeps the indexing: a gap at hi appends hi to the indices and es[hi] to the dots. */
  lemma DotIndexingStep(es: seq<GapPoint>, lo: nat, hi: nat, dp: seq<GapPoint>, p: seq<nat>)
    requires lo < hi < |es|
    requires DotIndexing(es, lo, hi - 1, dp, p)
    ensures es[hi].isGap ==> DotIndexing(es, lo, hi, dp + [es[hi]], p + [hi])
    ensures !es[hi].isGap ==> DotIndexing(es, lo, hi, dp, p)
  {
    if es[hi].isGap {
      var idx := p + [hi];
      var d := dp + [es[hi]];
      assert forall k :: 0 <= k < |p| ==> idx[k] == p[k] && d[k] == dp[k];
      assert idx[|p|] == hi && d[|p|] == es[hi];
      forall j | lo <= j <= hi
        ensures j in idx <==> DotSelected(es, lo, j)
      {
        if j < hi {
          assert j in idx <==> j in p;
        } else {
          assert idx[|p|] == j;
        }
      }
    } else {
      assert hi !in p;
    }
  }

  /** DotIndices indexes the dot list: increasing indices, each entry of d at its index, exactly the selected ones. */
  lemma {:induction false} DotIndicesIndexDots(es: seq<GapPoint>, lo: nat, hi: nat)
    requires lo <= hi < |es|
    ensures DotIndexing(es, lo, hi, Dots(es, lo, hi), DotIndices(es, lo, hi))
    decreases hi
  {
    if hi > lo {
      DotIndicesIndexDots(es, lo, hi - 1);
      DotIndexingStep(es, lo, hi, Dots(es, lo, hi - 1), DotIndices(es, lo, hi - 1));
    }
  }

  /**
   * The dots are the first entry when it is a single point, then the gap entries among
   * the second ends, in order: each gap entry is queued once, and nothing else is.
   */
  lemma {:induction false} DotsAreGaps(es: seq<GapPoint>, lo: nat, hi: nat)
    requires lo <= hi < |es|
    ensures var d := Dots(es, lo, hi);
      (forall k :: 0 <= k < |d| ==> d[k].isGap || (k == 0 && d[k] == es[lo] && d[k].isSinglePoint))
      && (forall j :: lo < j <= hi && es[j].isGap ==> es[j] in d)
      && (es[lo].isSinglePoint ==> |d| > 0 && d[0] == es[lo])
    ensures exists idx :: DotIndexing(es, lo, hi, Dots(es, lo, hi), idx)
  {
    DotIndicesIndexDots(es, lo, hi);
    if hi > lo {
      DotsAreGaps(es, lo, hi - 1);
    }
  }

  /**
   * The dot colour uses a non-strict test while the pair test is strict: an entry lying
   * exactly on the top limit is a limit-coloured dot, yet a pair of such entries is drawn
   * in the normal colour.
   */
  lemma DotColourOnLimit(top: real, bottom: real, isGap: bool)
    requires bottom <= top
    ensures var e := GapPoint(0.0, top, isGap, false);
      DotInLimitColour(e.y, Some(top), Some(bottom))
      && PairKind(e, e, Some(top), Some(bottom)) == (if isGap then Dotted else Solid)
  {
  }

  /** Any entry strictly outside the band is also a limit-coloured dot. */
  lemma OutOfBandDotInLimitColour(y: real, top: Option<real>, bottom: Option<real>)
    requires LimitsEnabled(top, bottom) && OutOfBand(y, top.value, bottom.value)
    ensures DotInLimitColour(y, top, bottom)
  {
  }
}
