/**
 * GapEntry is a chart entry (x, y) that carries two flags the line renderer
 * uses: whether the entry starts a gap, and whether it is an isolated single
 * point. The annotator creates entries and flips the single-point flag of an
 * entry it has already appended, so the entry is an object with mutable flags.
 */
module GapEntries {

  /** The value an entry holds at one moment: what every later stage reads. */
  datatype GapPoint = GapPoint(x: real, y: real, isGap: bool, isSinglePoint: bool)

  class GapEntry {
    // Entry's coordinates: never changed by the renderer.
    const x: real
    const y: real
    var isGap: bool
    var isSinglePoint: bool

    /** The current state of this entry as a value. */
    function Value(): (v: GapPoint)
      reads this
    {
      GapPoint(x, y, isGap, isSinglePoint)
    }

    constructor (x: real, y: real, isGap: bool)
      ensures this.x == x && this.y == y && this.isGap == isGap
      ensures !isSinglePoint
    {
      this.x := x;
      this.y := y;
      this.isGap := isGap;
      this.isSinglePoint := false;
    }

    method IsGap() returns (b: bool)
      ensures b == isGap
    {
      b := isGap;
    }

    method SetGap(gap: bool)
      modifies this
      ensures isGap == gap && isSinglePoint == old(isSinglePoint)
    {
      isGap := gap;
    }

    method IsSinglePoint() returns (b: bool)
      ensures b == isSinglePoint
    {
      b := isSinglePoint;
    }

    method SetSinglePoint(singlePoint: bool)
      modifies this
      ensures isSinglePoint == singlePoint && isGap == old(isGap)
    {
      isSinglePoint := singlePoint;
    }
  }
}
