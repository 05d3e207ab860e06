# Line renderer geometry of MPAndroidChart (gap and limit fork), in Dafny

This project models the geometry pipeline of the line chart renderer in this fork of
MPAndroidChart, together with the two small data holders it uses.

1. **The gap/limit annotator** (`buildLineDataSetWithIntersections`).
   - It walks the raw entries once. An entry whose x-step exceeds the maximum allowed gap
     is flagged as a gap.
   - An entry is marked a single point when it and its successor are gaps. The last entry
     is marked when it is a gap.
   - Wherever a segment strictly crosses the top or the bottom limit, an interpolated entry
     is inserted.
2. **Limit extraction and the pair classifier of `drawLinear`.**
   - The top limit is the largest left-axis limit line and the bottom limit is the smallest.
   - Every consecutive pair of visible entries goes to one of four `LineBuffer`s: solid,
     solid in the limit colour, dotted, or dotted in the limit colour.
   - Single points and gap entries are queued as dots.
3. **The fill chunking of `drawLinearFill` and its four polygon generators.**
   - The visible range is cut into chunks at every gap entry, after 128 steps, and at the
     last entry.
   - Each chunk becomes closed polygons: a plain one, or in-band, top-overflow and
     bottom-overflow ones.
   - Each single point at a chunk boundary gets vertical stems instead.
4. **The horizontal and the cubic bezier**, and the fill closing of `drawCubicFill`.
5. **`LineBuffer`**: a fixed-capacity float array with a write cursor and a segment count.
6. **`GapEntry`**: an entry with two mutable flags.

How each part is modelled:

- **Objects that change in place become classes.**
  - `GapEntries.GapEntry`: the annotator flips the single-point flag of an entry it has
    already appended.
  - `LineBuffers.LineBuffer`: its `array<real>` is written at a cursor.
  - `Paths.Path`: the platform path, reset and appended to.
- **Loops become methods**, each proved equal to a specification function on values:
  - `Annotator.Annotate` for the annotator;
  - `Classifier.KindFloats`, `KindCount` and `Dots` for the classifier;
  - `FillPaths.FillPath` and `FillChunks.FillFrom` for the fill;
  - `Splines.HorizontalPath` and `CubicPath` for the beziers.
- **The promised properties are lemmas about those functions.**
- **Inputs**: coordinates are reals. The visible bounds (`min`, `range`), `fillMin`,
  `phaseY`, the axis maximum and minimum, and the cubic intensity are parameters.

Modules:
`Options`, `GapEntries`, `LineBuffers`, `Paths`, `Annotator`, `AnnotatorProps`, `Limits`,
`Classifier`, `FillPaths`, `FillChunks`, `FillChunkProps`, `Splines`, `SplineProps`.

## Model

| member | source | states |
|---|---|---|
| GapEntries.GapEntry.constructor | MPChartLib/src/main/java/com/github/mikephil/charting/data/GapEntry.java:7-10 | records x, y and the gap flag; the single-point flag starts false |
| GapEntries.GapEntry.IsGap | MPChartLib/src/main/java/com/github/mikephil/charting/data/GapEntry.java:12-14 | returns the gap flag and changes nothing |
| GapEntries.GapEntry.SetGap | MPChartLib/src/main/java/com/github/mikephil/charting/data/GapEntry.java:16-18 | sets the gap flag and leaves the single-point flag as it was |
| GapEntries.GapEntry.IsSinglePoint | MPChartLib/src/main/java/com/github/mikephil/charting/data/GapEntry.java:20-22 | returns the single-point flag and changes nothing |
| GapEntries.GapEntry.SetSinglePoint | MPChartLib/src/main/java/com/github/mikephil/charting/data/GapEntry.java:24-26 | sets the single-point flag and leaves the gap flag as it was |
| LineBuffers.LineBuffer.constructor | MPChartLib/src/main/java/com/github/mikephil/charting/renderer/LineBuffer.java:11-15 | allocates entryCount * pointsPerEntryPair * 4 floats, with the cursor and the segment count at 0 |
| LineBuffers.LineBuffer.Add | MPChartLib/src/main/java/com/github/mikephil/charting/renderer/LineBuffer.java:17-25 | with four slots left, writes e1.x, e1.y * phaseY, e2.x, e2.y * phaseY at the cursor and advances the cursor by 4 and the count by 1; otherwise changes nothing; never touches another slot; keeps cursor == 4 * count <= length |
| LineBuffers.LineBuffer.Size | MPChartLib/src/main/java/com/github/mikephil/charting/renderer/LineBuffer.java:31-33 | the segment count, a quarter of the cursor |
| LineBuffers.LineBuffer.FloatCount | MPChartLib/src/main/java/com/github/mikephil/charting/renderer/LineBuffer.java:35-37 | count * pointsPerEntryPair * 2, which is the cursor when pointsPerEntryPair is 2 |
| LineBuffers.LineBuffer.Reset | MPChartLib/src/main/java/com/github/mikephil/charting/renderer/LineBuffer.java:39-42 | rewinds the cursor and the count to 0; the array is neither reallocated nor changed |
| LineBuffers.SegmentFloats | MPChartLib/src/main/java/com/github/mikephil/charting/renderer/LineBuffer.java:19-22 | a segment takes exactly four floats |
| Paths.Path.constructor | MPChartLib/src/main/java/com/github/mikephil/charting/renderer/LineChartRenderer.java:530-532 | a new path holds no commands |
| Paths.Path.Reset | MPChartLib/src/main/java/com/github/mikephil/charting/renderer/LineChartRenderer.java:699 | reset empties the command list |
| Paths.Path.MoveTo | MPChartLib/src/main/java/com/github/mikephil/charting/renderer/LineChartRenderer.java:703 | moveTo appends one MoveTo command |
| Paths.Path.LineTo | MPChartLib/src/main/java/com/github/mikephil/charting/renderer/LineChartRenderer.java:704 | lineTo appends one LineTo command |
| Paths.Path.CubicTo | MPChartLib/src/main/java/com/github/mikephil/charting/renderer/LineChartRenderer.java:162-165 | cubicTo appends one CubicTo command |
| Paths.Path.AddPath | MPChartLib/src/main/java/com/github/mikephil/charting/renderer/LineChartRenderer.java:173 | addPath appends all commands of the other path |
| Paths.Path.Close | MPChartLib/src/main/java/com/github/mikephil/charting/renderer/LineChartRenderer.java:720 | close appends one Close command |
| Annotator.InterpolateGapEntry | MPChartLib/src/main/java/com/github/mikephil/charting/renderer/LineChartRenderer.java:523-528 | the inserted entry lies on the limit, carries the segment's gap flag and is not a single point |
| AnnotatorProps.LevelSegmentMidpoint | MPChartLib/src/main/java/com/github/mikephil/charting/renderer/LineChartRenderer.java:519-524 | a level segment falls back to the midpoint x, and a level segment never crosses a limit strictly |
| AnnotatorProps.InterpolatedOnSegment | MPChartLib/src/main/java/com/github/mikephil/charting/renderer/LineChartRenderer.java:519-528 | on a strict crossing the inserted entry is at y = limit, on the segment's line, and strictly between x1 and x2 when they differ |
| AnnotatorProps.FractionBetween | MPChartLib/src/main/java/com/github/mikephil/charting/renderer/LineChartRenderer.java:525 | on a strict crossing t = (limit - y1) / (y2 - y1) lies strictly inside (0, 1) |
| Annotator.LimitCrossing | MPChartLib/src/main/java/com/github/mikephil/charting/renderer/LineChartRenderer.java:462-469 | at most one entry is inserted per limit |
| AnnotatorProps.LimitCrossingShape | MPChartLib/src/main/java/com/github/mikephil/charting/renderer/LineChartRenderer.java:462-469 | an entry is inserted for a limit exactly when the limit is present and crossed strictly; it lies on the segment at the limit |
| Annotator.Crossings | MPChartLib/src/main/java/com/github/mikephil/charting/renderer/LineChartRenderer.java:459-482 | at most two entries are inserted per segment |
| AnnotatorProps.CrossingsShape | MPChartLib/src/main/java/com/github/mikephil/charting/renderer/LineChartRenderer.java:459-482 | one inserted entry per strictly crossed limit; all are on the segment at a crossed limit's height with the segment's gap flag; two are in ascending x order; as a multiset they are the top and the bottom crossing |
| Annotator.Extend | MPChartLib/src/main/java/com/github/mikephil/charting/renderer/LineChartRenderer.java:451-487 | one loop step adds exactly the crossings and the new entry |
| AnnotatorProps.ExtendParts | MPChartLib/src/main/java/com/github/mikephil/charting/renderer/LineChartRenderer.java:451-487 | one loop step keeps the earlier entries, marks the previous entry single exactly when both it and the new entry are gaps, then appends the crossings and the new unmarked entry |
| Annotator.Build | MPChartLib/src/main/java/com/github/mikephil/charting/renderer/LineChartRenderer.java:439-488 | after k raw entries the list has at least k entries |
| Annotator.BuildStep | MPChartLib/src/main/java/com/github/mikephil/charting/renderer/LineChartRenderer.java:446-488 | each loop iteration is one Extend of the list so far |
| Annotator.Annotate | MPChartLib/src/main/java/com/github/mikephil/charting/renderer/LineChartRenderer.java:433-492 | the annotated list is at least as long as the raw list |
| Annotator.MarkLastSinglePoint | MPChartLib/src/main/java/com/github/mikephil/charting/renderer/LineChartRenderer.java:454-456 | setSinglePoint on the entry already appended changes exactly that entry of the output, in place |
| Annotator.NewCrossingEntries | MPChartLib/src/main/java/com/github/mikephil/charting/renderer/LineChartRenderer.java:459-482 | creates fresh entries whose values are exactly Crossings, in the order they are appended |
| Annotator.AppendSegment | MPChartLib/src/main/java/com/github/mikephil/charting/renderer/LineChartRenderer.java:447-487 | one loop body keeps the earlier objects, grows the list by fresh objects and leaves the values equal to Extend |
| Annotator.BuildEntries | MPChartLib/src/main/java/com/github/mikephil/charting/renderer/LineChartRenderer.java:437-488 | the loop's list of objects has, entry by entry, the values of Build |
| Annotator.BuildLineDataSetWithIntersections | MPChartLib/src/main/java/com/github/mikephil/charting/renderer/LineChartRenderer.java:427-494 | the result, entry by entry, has the values of Annotate, including the empty input and the final mark |
| AnnotatorProps.Pos | MPChartLib/src/main/java/com/github/mikephil/charting/renderer/LineChartRenderer.java:473-484 | raw entry i lands at position at least i |
| AnnotatorProps.PosIncreasing | MPChartLib/src/main/java/com/github/mikephil/charting/renderer/LineChartRenderer.java:473-484 | raw entries keep their order in the output |
| AnnotatorProps.BuildLength | MPChartLib/src/main/java/com/github/mikephil/charting/renderer/LineChartRenderer.java:446-488 | after k raw entries the list ends at raw entry k - 1 |
| AnnotatorProps.BuildRaw | MPChartLib/src/main/java/com/github/mikephil/charting/renderer/LineChartRenderer.java:446-488 | after k raw entries each raw entry is in place with its coordinates, its gap flag and a single mark exactly when it and its successor are gaps |
| AnnotatorProps.BuildCrossings | MPChartLib/src/main/java/com/github/mikephil/charting/renderer/LineChartRenderer.java:459-484 | after k raw entries, between raw entries i - 1 and i lie exactly that segment's crossings |
| AnnotatorProps.CrossingsAppended | MPChartLib/src/main/java/com/github/mikephil/charting/renderer/LineChartRenderer.java:471-484 | a loop step appends exactly the crossings of its segment before the new raw entry |
| AnnotatorProps.CrossingsKept | MPChartLib/src/main/java/com/github/mikephil/charting/renderer/LineChartRenderer.java:471-484 | a loop step leaves earlier crossings in place |
| AnnotatorProps.RawAppended | MPChartLib/src/main/java/com/github/mikephil/charting/renderer/LineChartRenderer.java:484 | a loop step appends its raw entry, unmarked, last |
| AnnotatorProps.RawKept | MPChartLib/src/main/java/com/github/mikephil/charting/renderer/LineChartRenderer.java:454-456 | a loop step leaves earlier raw entries in place and marks the previous one exactly when both are gaps |
| AnnotatorProps.CrossingsFacts | MPChartLib/src/main/java/com/github/mikephil/charting/renderer/LineChartRenderer.java:462-482 | a segment's crossings carry its gap flag, are not single points, are in x order and lie within its x-range |
| AnnotatorProps.ExtendSingleImpliesGap | MPChartLib/src/main/java/com/github/mikephil/charting/renderer/LineChartRenderer.java:454-456 | a loop step keeps "every single point is a gap" |
| AnnotatorProps.ExtendSingleFollowedByGap | MPChartLib/src/main/java/com/github/mikephil/charting/renderer/LineChartRenderer.java:451-488 | a loop step keeps "the entry after a single point is a gap" and leaves the new last entry unmarked |
| AnnotatorProps.ExtendNoGaps | MPChartLib/src/main/java/com/github/mikephil/charting/renderer/LineChartRenderer.java:451-456 | a non-gap step adds no gap and no single point |
| AnnotatorProps.ExtendSorted | MPChartLib/src/main/java/com/github/mikephil/charting/renderer/LineChartRenderer.java:471-484 | a loop step keeps ascending x order |
| AnnotatorProps.BuildSingleImpliesGap | MPChartLib/src/main/java/com/github/mikephil/charting/renderer/LineChartRenderer.java:446-488 | in the loop's list every single point is a gap |
| AnnotatorProps.BuildSingleFollowedByGap | MPChartLib/src/main/java/com/github/mikephil/charting/renderer/LineChartRenderer.java:446-488 | in the loop's list the entry after a single point is a gap, and the last entry is not yet a single point |
| AnnotatorProps.BuildNoGaps | MPChartLib/src/main/java/com/github/mikephil/charting/renderer/LineChartRenderer.java:437-451 | with maxGap <= 0 no entry after the first is a gap or a single point |
| AnnotatorProps.BuildSorted | MPChartLib/src/main/java/com/github/mikephil/charting/renderer/LineChartRenderer.java:446-488 | x-sorted raw entries give an x-sorted list |
| AnnotatorProps.CrossRuleAt | MPChartLib/src/main/java/com/github/mikephil/charting/renderer/LineChartRenderer.java:462-469 | the crossing rule on segment i is Crossings with that segment's gap flag |
| AnnotatorProps.AnnotateParts | MPChartLib/src/main/java/com/github/mikephil/charting/renderer/LineChartRenderer.java:490-492 | after the loop only the last entry may change: it is marked single when it is a gap and there were at least two raw entries |
| AnnotatorProps.AnnotateRaw | MPChartLib/src/main/java/com/github/mikephil/charting/renderer/LineChartRenderer.java:437-492 | every raw entry appears in order with its coordinates; its gap flag is "first, or step > maxGap > 0"; it is single exactly when it and its successor are gaps, or it is a gap and the last of several |
| AnnotatorProps.AnnotateCrossings | MPChartLib/src/main/java/com/github/mikephil/charting/renderer/LineChartRenderer.java:459-492 | between consecutive raw entries lie exactly their segment's crossings, and nothing follows the last raw entry |
| AnnotatorProps.AnnotateSmall | MPChartLib/src/main/java/com/github/mikephil/charting/renderer/LineChartRenderer.java:436-444 | the output is empty exactly when the input is; one point gives one gap entry that is not a single point |
| AnnotatorProps.AnnotateFirst | MPChartLib/src/main/java/com/github/mikephil/charting/renderer/LineChartRenderer.java:439-444 | the first output entry is the first raw entry, flagged as a gap |
| AnnotatorProps.AnnotateSingleImpliesGap | MPChartLib/src/main/java/com/github/mikephil/charting/renderer/LineChartRenderer.java:454-492 | in the output every single point is a gap |
| AnnotatorProps.AnnotateSingleOnlyDotted | MPChartLib/src/main/java/com/github/mikephil/charting/renderer/LineChartRenderer.java:446-492 | of every neighbouring pair in the output with a single point at either end, the second entry is a gap |
| AnnotatorProps.AnnotateSinglePairsDotted | MPChartLib/src/main/java/com/github/mikephil/charting/renderer/LineChartRenderer.java:355-375 | every pair of the output that touches a single point is classified `Dotted` or `DottedLimit` |
| AnnotatorProps.AnnotateNoGaps | MPChartLib/src/main/java/com/github/mikephil/charting/renderer/LineChartRenderer.java:437-451 | with maxGap <= 0 only the first entry is a gap and no entry is a single point |
| AnnotatorProps.AnnotateSorted | MPChartLib/src/main/java/com/github/mikephil/charting/renderer/LineChartRenderer.java:446-488 | x-sorted raw entries give an x-sorted output |
| AnnotatorProps.PosBound | MPChartLib/src/main/java/com/github/mikephil/charting/renderer/LineChartRenderer.java:471-484 | raw entry i lands at position at most 3 * i |
| AnnotatorProps.AnnotateLength | MPChartLib/src/main/java/com/github/mikephil/charting/renderer/LineChartRenderer.java:446-488 | the output has between n and 3n - 2 entries for n raw entries |
| AnnotatorProps.AllGapsExample | MPChartLib/src/main/java/com/github/mikephil/charting/renderer/LineChartRenderer.java:451-492 | four entries with unit steps and maxGap 0.5: every entry is a gap and a single point, each by its successor and the last by the final mark |
| AnnotatorProps.CrossingOrderExample | MPChartLib/src/main/java/com/github/mikephil/charting/renderer/LineChartRenderer.java:471-478 | on (0, 0)-(2, 10) with limits 8 and 2, the bottom crossing at x = 0.4 is inserted before the top crossing at x = 1.6 |
| Limits.ExtractLimits | MPChartLib/src/main/java/com/github/mikephil/charting/renderer/LineChartRenderer.java:300-313 | top is a limit value and at least all of them, bottom is a limit value and at most all of them; both exist exactly when there is a limit line; the limits are enabled exactly then, and bottom <= top |
| Classifier.PairKind | MPChartLib/src/main/java/com/github/mikephil/charting/renderer/LineChartRenderer.java:355-375 | a pair goes to a limit buffer exactly when the limits are enabled and an end is strictly outside the band, and to a dotted buffer exactly when its second entry is a gap |
| Classifier.KindFloats | MPChartLib/src/main/java/com/github/mikephil/charting/renderer/LineChartRenderer.java:347-382 | a buffer's floats are four per pair of its kind |
| Classifier.KindCount | MPChartLib/src/main/java/com/github/mikephil/charting/renderer/LineChartRenderer.java:347-382 | no more pairs of a kind than pairs in the range |
| Classifier.AddTo | MPChartLib/src/main/java/com/github/mikephil/charting/renderer/LineChartRenderer.java:355-375 | the buffer of the pair's kind takes the pair: a buffer sized for every entry always has room |
| Classifier.AddPair | MPChartLib/src/main/java/com/github/mikephil/charting/renderer/LineChartRenderer.java:348-375 | one iteration adds the pair to the buffer of its kind and leaves the other three holding their kinds |
| Classifier.ClassifySegments | MPChartLib/src/main/java/com/github/mikephil/charting/renderer/LineChartRenderer.java:332-382 | four distinct fresh buffers sized for every entry; each ends with exactly the floats and the count of the pairs of its kind; the queued dots are Dots |
| Classifier.ClassifyRange | MPChartLib/src/main/java/com/github/mikephil/charting/renderer/LineChartRenderer.java:347-382 | the loop leaves every buffer holding its kind and queues Dots |
| Classifier.KindCountsPartition | MPChartLib/src/main/java/com/github/mikephil/charting/renderer/LineChartRenderer.java:347-382 | every pair goes to exactly one buffer: the four counts add up to the number of pairs |
| Classifier.NoLimitPairsWhenDisabled | MPChartLib/src/main/java/com/github/mikephil/charting/renderer/LineChartRenderer.java:369-375 | with the limits disabled the two limit buffers are never written |
| Classifier.NoDottedPairsWithoutGaps | MPChartLib/src/main/java/com/github/mikephil/charting/renderer/LineChartRenderer.java:357-372 | without a gap among the second entries the dotted buffers are never written |
| Classifier.DotsAreGaps | MPChartLib/src/main/java/com/github/mikephil/charting/renderer/LineChartRenderer.java:342-379 | the dots are the first entry when it is a single point, then every gap entry reached as a second end; there is a strictly increasing index list, each dot being the entry at its index, in which an index appears exactly when its entry is queued, so each is queued once, in order, and nothing else is |
| Classifier.DotIndicesIndexDots | MPChartLib/src/main/java/com/github/mikephil/charting/renderer/LineChartRenderer.java:342-379 | the indices of the loop's queued dots increase, each dot is the entry at its index, and an index is listed exactly when the first entry is single or a later entry is a gap |
| Classifier.DotIndexingStep | MPChartLib/src/main/java/com/github/mikephil/charting/renderer/LineChartRenderer.java:377-379 | one iteration appends the entry and its index when it is a gap and keeps both lists otherwise |
| Classifier.DotColourOnLimit | MPChartLib/src/main/java/com/github/mikephil/charting/renderer/LineChartRenderer.java:414-418 | an entry exactly on the top limit is a limit-coloured dot, yet a pair of such entries is drawn in the normal colour: the dot test is non-strict, the pair test strict |
| Classifier.OutOfBandDotInLimitColour | MPChartLib/src/main/java/com/github/mikephil/charting/renderer/LineChartRenderer.java:414-418 | every dot strictly outside the band gets the limit colour |
| FillPaths.Baseline | MPChartLib/src/main/java/com/github/mikephil/charting/renderer/LineChartRenderer.java:703-832 | plain polygons close on fillMin; in-band on a level inside the band, fillMin itself when inside; top overflow on max(top, fillMin); bottom overflow on min(bottom, fillMin) |
| FillPaths.FirstY | MPChartLib/src/main/java/com/github/mikephil/charting/renderer/LineChartRenderer.java:704-837 | the first vertex: y for plain, min(top, y) in the band (clamped from above only), max(top, y) above, min(bottom, y) below |
| FillPaths.LoopY | MPChartLib/src/main/java/com/github/mikephil/charting/renderer/LineChartRenderer.java:712-846 | later vertices: y for plain, clamped into [bottom, top] in the band and unchanged inside it, max(top, y) above, min(bottom, y) below |
| FillPaths.Vertices | MPChartLib/src/main/java/com/github/mikephil/charting/renderer/LineChartRenderer.java:708-713 | one vertex per entry of the range |
| FillPaths.AppendVertices | MPChartLib/src/main/java/com/github/mikephil/charting/renderer/LineChartRenderer.java:708-849 | the generators' loop appends the vertices of entries start + 1 .. end |
| FillPaths.CloseUp | MPChartLib/src/main/java/com/github/mikephil/charting/renderer/LineChartRenderer.java:715-720 | back to the baseline at the last entry when a later entry was visited, then close |
| FillPaths.GenerateFilledPath | MPChartLib/src/main/java/com/github/mikephil/charting/renderer/LineChartRenderer.java:689-721 | the path is exactly the plain polygon FillPath |
| FillPaths.GenerateFilledForLimitsPath | MPChartLib/src/main/java/com/github/mikephil/charting/renderer/LineChartRenderer.java:732-777 | the path is exactly the in-band polygon FillPath |
| FillPaths.GenerateTopLimitsPath | MPChartLib/src/main/java/com/github/mikephil/charting/renderer/LineChartRenderer.java:779-817 | the path is exactly the top-overflow polygon FillPath |
| FillPaths.GenerateBottomLimitsPath | MPChartLib/src/main/java/com/github/mikephil/charting/renderer/LineChartRenderer.java:819-857 | the path is exactly the bottom-overflow polygon FillPath |
| FillPaths.VerticesAt | MPChartLib/src/main/java/com/github/mikephil/charting/renderer/LineChartRenderer.java:708-713 | vertex k belongs to entry lo + k |
| FillPaths.FillPathShape | MPChartLib/src/main/java/com/github/mikephil/charting/renderer/LineChartRenderer.java:699-720 | a polygon starts on its baseline below the first entry, has one vertex per entry in order, returns to the baseline below the last entry when there are several, and closes |
| FillChunks.ChunkEnd | MPChartLib/src/main/java/com/github/mikephil/charting/renderer/LineChartRenderer.java:597 | a chunk closed at a gap ends at the entry before it, otherwise at the boundary itself |
| FillChunks.DrawChunk | MPChartLib/src/main/java/com/github/mikephil/charting/renderer/LineChartRenderer.java:600-620 | draws exactly ChunkPolygons: the plain polygon, or the visible in-band, top and bottom polygons |
| FillChunks.DrawStems | MPChartLib/src/main/java/com/github/mikephil/charting/renderer/LineChartRenderer.java:623-673 | draws exactly Stems: nothing unless the entry is a single point |
| FillChunks.DrawTopStem | MPChartLib/src/main/java/com/github/mikephil/charting/renderer/LineChartRenderer.java:629-638 | the stem above the top limit, from max(top, fillMin) to max(that, y) * phaseY |
| FillChunks.DrawBottomStem | MPChartLib/src/main/java/com/github/mikephil/charting/renderer/LineChartRenderer.java:639-648 | the stem below the bottom limit, from min(bottom, fillMin) to min(bottom, y) * phaseY |
| FillChunks.DrawBandStem | MPChartLib/src/main/java/com/github/mikephil/charting/renderer/LineChartRenderer.java:649-663 | the stem in the band, from the in-band baseline to max(baseline, clamped y) * phaseY |
| FillChunks.FillStep | MPChartLib/src/main/java/com/github/mikephil/charting/renderer/LineChartRenderer.java:588-676 | one iteration draws the next part of FillFrom and moves the chunk start to the boundary or keeps it |
| FillChunks.DrawLinearFill | MPChartLib/src/main/java/com/github/mikephil/charting/renderer/LineChartRenderer.java:542-678 | the loop draws exactly FillFrom from the first visible entry, with the open chunk starting at entry 0 |
| FillChunkProps.ChunkGood | MPChartLib/src/main/java/com/github/mikephil/charting/renderer/LineChartRenderer.java:599-620 | a short gap-free chunk draws only good polygons |
| FillChunkProps.StemsGood | MPChartLib/src/main/java/com/github/mikephil/charting/renderer/LineChartRenderer.java:623-673 | stems stand on the single point they are drawn for |
| FillChunkProps.FillFromGood | MPChartLib/src/main/java/com/github/mikephil/charting/renderer/LineChartRenderer.java:586-676 | from any state whose open chunk is short and gap-free, every polygon spans at most 128 steps, crosses no gap and lies after the start, and every stem is on a single point |
| FillChunkProps.FromBoundsGood | MPChartLib/src/main/java/com/github/mikephil/charting/renderer/LineChartRenderer.java:570-586 | with the first chunk opened at min, every polygon lies in the visible range, spans at most 128 steps and crosses no gap |
| FillChunkProps.AsWrittenGoodWhenShortPrefix | MPChartLib/src/main/java/com/github/mikephil/charting/renderer/LineChartRenderer.java:574-676 | as written, the bounds hold when at most 128 entries without a gap precede min |
| FillChunkProps.AsWrittenFirstChunkTooLong | MPChartLib/src/main/java/com/github/mikephil/charting/renderer/LineChartRenderer.java:574-619 | as written, with more than 128 entries before min, the plain fill's first polygon runs from entry 0 to min, more than 128 steps |
| FillChunkProps.ChunkCovers | MPChartLib/src/main/java/com/github/mikephil/charting/renderer/LineChartRenderer.java:599-620 | a chunk with several entries draws a polygon over all of them when some polygon is enabled |
| FillChunkProps.FillFromCovers | MPChartLib/src/main/java/com/github/mikephil/charting/renderer/LineChartRenderer.java:586-676 | every non-gap entry after the open chunk's start is inside some polygon |
| FillChunkProps.FromBoundsCovers | MPChartLib/src/main/java/com/github/mikephil/charting/renderer/LineChartRenderer.java:586-676 | every non-gap visible entry after the first is inside some polygon |
| FillChunkProps.AsWrittenCovers | MPChartLib/src/main/java/com/github/mikephil/charting/renderer/LineChartRenderer.java:574-676 | as written, every non-gap entry up to the end is inside some polygon |
| FillChunkProps.StemsDrawn | MPChartLib/src/main/java/com/github/mikephil/charting/renderer/LineChartRenderer.java:623-673 | a setup that draws its chunks draws at least one stem on a single point |
| FillChunkProps.FillFromStems | MPChartLib/src/main/java/com/github/mikephil/charting/renderer/LineChartRenderer.java:588-673 | every single point the loop reaches gets a stem: it is a gap, so the loop closes a chunk there and draws its stems |
| FillChunkProps.FromBoundsStems | MPChartLib/src/main/java/com/github/mikephil/charting/renderer/LineChartRenderer.java:574-673 | with the first chunk opened at min, every visible single point, min included, gets a stem |
| FillChunkProps.AsWrittenStems | MPChartLib/src/main/java/com/github/mikephil/charting/renderer/LineChartRenderer.java:574-673 | with the first chunk opened at entry 0 as written, every visible single point gets a stem too |
| Splines.HorizontalSegments | MPChartLib/src/main/java/com/github/mikephil/charting/renderer/LineChartRenderer.java:154-166 | one segment per visited entry |
| Splines.AppendHorizontalSegments | MPChartLib/src/main/java/com/github/mikephil/charting/renderer/LineChartRenderer.java:154-166 | the loop appends exactly the horizontal segments into entries min + 1 .. min + range |
| Splines.DrawHorizontalBezier | MPChartLib/src/main/java/com/github/mikephil/charting/renderer/LineChartRenderer.java:136-176 | the curve is HorizontalPath (empty when range < 1); with fill, the fill path is the curve plus the fill closing, and otherwise it is untouched |
| SplineProps.HorizontalSegmentShape | MPChartLib/src/main/java/com/github/mikephil/charting/renderer/LineChartRenderer.java:159-165 | both control points sit at the midpoint x, between the entries, at the start's and the end's scaled y; the segment ends at the current entry |
| SplineProps.HorizontalSegmentsAt | MPChartLib/src/main/java/com/github/mikephil/charting/renderer/LineChartRenderer.java:154-166 | segment k joins entries lo + k - 1 and lo + k |
| SplineProps.HorizontalThroughEntries | MPChartLib/src/main/java/com/github/mikephil/charting/renderer/LineChartRenderer.java:146-166 | the horizontal curve starts at entry min and its command k ends at entry min + k |
| Splines.PrevPrevIndex | MPChartLib/src/main/java/com/github/mikephil/charting/renderer/LineChartRenderer.java:217-229 | the window's first index is two back, clamped at 0 |
| Splines.NextIndex | MPChartLib/src/main/java/com/github/mikephil/charting/renderer/LineChartRenderer.java:233 | the window's last index is one on, clamped at the last entry; never outside the data set |
| Splines.CubicSegments | MPChartLib/src/main/java/com/github/mikephil/charting/renderer/LineChartRenderer.java:227-244 | one segment per visited entry |
| Splines.AppendCubicSegment | MPChartLib/src/main/java/com/github/mikephil/charting/renderer/LineChartRenderer.java:236-243 | one cubicTo with the control points of the four-entry window |
| Splines.AppendCubicSegments | MPChartLib/src/main/java/com/github/mikephil/charting/renderer/LineChartRenderer.java:213-244 | the loop, with its reuse of the previous next entry, appends exactly the cubic segments into entries min + 1 .. min + range |
| Splines.DrawCubicBezier | MPChartLib/src/main/java/com/github/mikephil/charting/renderer/LineChartRenderer.java:189-254 | the curve is CubicPath (empty when range < 1); with fill, the fill path is the curve plus the fill closing, and otherwise it is untouched |
| Splines.DrawCubicFill | MPChartLib/src/main/java/com/github/mikephil/charting/renderer/LineChartRenderer.java:267-274 | appends lineTo(last.x, fillMin), lineTo(first.x, fillMin) and close |
| SplineProps.CubicSegmentsAt | MPChartLib/src/main/java/com/github/mikephil/charting/renderer/LineChartRenderer.java:227-244 | segment k is the window segment into entry lo + k |
| SplineProps.CubicThroughEntries | MPChartLib/src/main/java/com/github/mikephil/charting/renderer/LineChartRenderer.java:225-244 | the cubic curve starts at entry min and its command k ends at entry min + k |
| SplineProps.CubicSmoothJoin | MPChartLib/src/main/java/com/github/mikephil/charting/renderer/LineChartRenderer.java:236-243 | at an inner entry the control points on both sides are mirror images through the entry, offset by intensity times the chord of its neighbours |
| SplineProps.CubicZeroIntensity | MPChartLib/src/main/java/com/github/mikephil/charting/renderer/LineChartRenderer.java:236-243 | at intensity 0 every segment's control points are its endpoints: a straight line |
| SplineProps.CubicWindowClampsAtEnds | MPChartLib/src/main/java/com/github/mikephil/charting/renderer/LineChartRenderer.java:217-233 | the first segment's window starts at entry 0 twice, the last one's ends at the last entry twice |

## Left out

- Drawing is left out: every Canvas and Paint call, colours, alpha, path effects,
  `drawFilledPath`, `drawLine`, `drawCircle`, `drawValues`, `drawCircles`, highlights,
  the bitmap cache and `copyStyle`. The model stops at the geometry handed to them: the
  buffers' floats, the dot list, the path commands and the `FillDraw` list.
- `Transformer` pixel mapping, `XBounds`, the fill formatter, `ChartAnimator` and `Log`
  are not part of this model. Their values are parameters: `min`, `range`, `fillMin`,
  `phaseY`, the axis maximum and minimum, and the cubic intensity.
- Coordinates are exact reals, so IEEE-754 float rounding is not modelled. Java `int`
  index arithmetic cannot overflow for a data set that fits in memory, so indices are
  unbounded naturals.
- LineChart.java is not part of this model. It is Android view plumbing.
- XBounds always lies inside the data set. The drawing methods therefore require
  `min + range < |entries|`, and the null guards for missing entries (lines 341, 349 and
  222) never fire and are not modelled.
- The limit extraction at the head of `drawLinearFill` (548-559) is the same loop as in
  `drawLinear`, modelled once as `Limits.ExtractLimits`. `DrawLinearFill` and
  `ClassifySegments` take the extracted limits as parameters.
- `LineBuffer.getBuffer` is the `buffer` field itself. `pointValuesToPixel` would
  rewrite the array in place and is not modelled.
- The classifier and the fill read annotated entries as `GapPoint` values. After the
  annotator nothing writes an entry again. The beziers read the raw entries (123-128),
  passed as `GapPoint` values whose flags they ignore.
- Annotator.BuildEntries: its freshness guarantee covers only the last entry, which is the
  one the final mark writes. Earlier entries are only known to be distinct from it.
- FillChunks.FillStep: the source tests `currentStartIndex != currentEndIndex` before
  drawing. The model tests the same. `DrawChunk` requires `start < end`, which holds
  because the open chunk never starts after the chunk end.
- With unit x-steps and a maximum gap of 0.5 every entry is a gap and a single point, so
  every pair is dotted (`AnnotatorProps.AllGapsExample`, `Classifier.PairKind`).
- A single point is never drawn as part of a solid line, but it still contributes the
  pairs around it to the dotted buffers: the classifier (355-375) never tests
  `isSinglePoint`. The model does not claim that an isolated point adds no line segments
  (`AnnotatorProps.AnnotateSinglePairsDotted` states only that those pairs are dotted).

## Findings

| source | as written | input that shows it | evidently intended | confidence | as-written member | corrected member |
|---|---|---|---|---|---|---|
| MPChartLib/src/main/java/com/github/mikephil/charting/renderer/LineChartRenderer.java:574 | `currentStartIndex` starts at 0, so the first polygon of `drawLinearFill` starts at entry 0, not at the first visible entry `bounds.min` | limits off, `bounds.min` = 200, no gap at entry 200: the first polygon spans entries 0..200, more than the 128-step chunk that the loop exists for (its comment names OutOfMemory), and it can also join across gaps before `min` | start the first chunk at `bounds.min` (`startingIndex`) | medium, not executed; the part before `min` is off-screen and clipped, so the error is in memory and work, not in pixels | FillChunkProps.AsWrittenFirstChunkTooLong | FillChunkProps.FromBoundsGood |
