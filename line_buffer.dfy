/**
 * LineBuffer: a fixed-capacity float array that collects line segments for one
 * call of the canvas' drawLines. Each segment (e1, e2) takes four slots
 * (e1.x, e1.y * phaseY, e2.x, e2.y * phaseY) written at a cursor; the buffer
 * also counts its segments. Floats are modelled as reals.
 */
module LineBuffers {
  import opened GapEntries

  /** The four floats one segment occupies. */
  function SegmentFloats(e1: GapPoint, e2: GapPoint, phaseY: real): (q: seq<real>)
    ensures |q| == 4
  {
    [e1.x, e1.y * phaseY, e2.x, e2.y * phaseY]
  }

  class LineBuffer {
    const buffer: array<real>
    var index: nat
    var sectionCount: nat
    const pointsPerEntryPair: nat

    /** The cursor always sits just after the last segment written. */
    ghost predicate Valid()
      reads this
    {
      index == 4 * sectionCount && index <= buffer.Length
    }

    /** The floats written since the last reset, in order. */
    ghost function Floats(): (s: seq<real>)
      reads this, buffer
      requires Valid()
      ensures |s| == 4 * sectionCount
    {
      buffer[..index]
    }

    constructor (entryCount: nat, pointsPerEntryPair: nat)
      ensures Valid() && fresh(buffer)
      ensures buffer.Length == entryCount * pointsPerEntryPair * 4
      ensures this.pointsPerEntryPair == pointsPerEntryPair
      ensures index == 0 && sectionCount == 0 && Floats() == []
    {
      this.pointsPerEntryPair := pointsPerEntryPair;
      buffer := new real[entryCount * pointsPerEntryPair * 4];
      index := 0;
      sectionCount := 0;
    }

    /** Appends one segment when four slots remain, and otherwise does nothing. */
    method Add(e1: GapPoint, e2: GapPoint, phaseY: real)
      requires Valid()
      modifies this, buffer
      ensures Valid()
      ensures old(index) + 4 <= buffer.Length ==>
        Floats() == old(Floats()) + SegmentFloats(e1, e2, phaseY) &&
        sectionCount == old(sectionCount) + 1
      ensures old(index) + 4 > buffer.Length ==>
        index == old(index) && sectionCount == old(sectionCount) && buffer[..] == old(buffer[..])
      ensures forall k :: 0 <= k < old(index) ==> buffer[k] == old(buffer[k])
      ensures forall k :: old(index) + 4 <= k < buffer.Length ==> buffer[k] == old(buffer[k])
    {
      if index + 4 <= buffer.Length {
        ghost var before := buffer[..index];
        var i, q := index, SegmentFloats(e1, e2, phaseY);
        buffer[i] := q[0];
        buffer[i + 1] := q[1];
        buffer[i + 2] := q[2];
        buffer[i + 3] := q[3];
        index := i + 4;
        sectionCount := sectionCount + 1;
        assert buffer[..index] == before + q by {
          assert forall k :: 0 <= k < i ==> buffer[..index][k] == before[k];
          assert forall k :: 0 <= k < 4 ==> buffer[..index][i + k] == q[k];
        }
      }
    }

    /** The number of segments written. */
    function Size(): (n: nat)
      reads this
      requires Valid()
      ensures 4 * n == index
    {
      sectionCount
    }

    /** The number of floats drawLines is told to read. */
    function FloatCount(): (n: int)
      reads this
      requires Valid()
      ensures pointsPerEntryPair == 2 ==> n == index
    {
      sectionCount * pointsPerEntryPair * 2
    }

    /** Rewinds the cursor; the array is neither reallocated nor cleared. */
    method Reset()
      requires Valid()
      modifies this
      ensures Valid() && index == 0 && sectionCount == 0 && Floats() == []
      ensures unchanged(buffer)
    {
      index := 0;
      sectionCount := 0;
    }
  }
}
