/**
 * prepareRechartData: the pivot from one bar per driver (a ragged list of
 * segments) to the rectangular form the stacked-bar chart needs.
 *
 * Row k of the data is the k-th driver in ascending numeric order, labelled
 * `#<number>`, with one value per segment position `seg0 .. seg{m-1}`, where
 * m is the largest segment count of any driver; positions past a driver's
 * own segments hold 0.  Entry i of the colour table lists, in the same driver
 * order, the colour of each driver's segment i, or "transparent" past the
 * driver's own segments.  The key `seg{i}` of the source is position i here.
 */
module Chart {
  import opened Stints
  import opened Segments
  import opened Drivers

  /** `{ driver: "#n", seg0: .., seg1: .. }`: the label and the values by position. */
  datatype ChartRow = ChartRow(driver: string, segs: seq<int>)

  /** The largest of the counts, taken as 0 for an empty list. */
  function MaxOf(xs: seq<nat>): (m: nat)
    ensures forall i :: 0 <= i < |xs| ==> xs[i] <= m
    ensures xs == [] ==> m == 0
    ensures xs != [] ==> exists i :: 0 <= i < |xs| && xs[i] == m
  {
    if xs == [] then 0
    else
      var m := MaxOf(xs[..|xs| - 1]);
      if xs[|xs| - 1] > m then xs[|xs| - 1] else m
  }

  /** The segment count of each driver, in the given driver order. */
  function SegmentCounts(sortedDrivers: seq<int>, stints: seq<Stint>, totalLaps: int): seq<nat> {
    seq(|sortedDrivers|, k requires 0 <= k < |sortedDrivers| =>
      |DriverSegments(sortedDrivers[k], stints, totalLaps)|)
  }

  /** `maxSegments`: the number of `seg` positions of every row. */
  function MaxSegments(sortedDrivers: seq<int>, stints: seq<Stint>, totalLaps: int): nat {
    MaxOf(SegmentCounts(sortedDrivers, stints, totalLaps))
  }

  /** The value of segment i, or 0 past the end of the bar (or for a falsy value). */
  function CellValue(segments: seq<Segment>, i: nat): int {
    if i < |segments| then segments[i].value else 0
  }

  /** The colour of segment i, or the filler colour past the end of the bar or for an empty colour. */
  function CellColor(segments: seq<Segment>, i: nat): string {
    if i < |segments| && segments[i].color != "" then segments[i].color else Transparent
  }

  /** The row of one driver, `width` positions wide. */
  function Row(driver: int, stints: seq<Stint>, totalLaps: int, width: nat): ChartRow {
    ChartRow(Label(driver),
      seq(width, i requires 0 <= i < width => CellValue(DriverSegments(driver, stints, totalLaps), i)))
  }

  /** Column i of the colour table: the colour of position i, driver by driver. */
  function ColorColumn(sortedDrivers: seq<int>, stints: seq<Stint>, totalLaps: int, i: nat): seq<string> {
    seq(|sortedDrivers|, k requires 0 <= k < |sortedDrivers| =>
      CellColor(DriverSegments(sortedDrivers[k], stints, totalLaps), i))
  }

  /** The `data` result: one row per driver, drivers in ascending order. */
  function ChartData(drivers: seq<int>, stints: seq<Stint>, totalLaps: int): seq<ChartRow> {
    var sortedDrivers := SortAscending(drivers);
    var width := MaxSegments(sortedDrivers, stints, totalLaps);
    seq(|sortedDrivers|, k requires 0 <= k < |sortedDrivers| => Row(sortedDrivers[k], stints, totalLaps, width))
  }

  /** The `segmentColors` result: one column per segment position. */
  function SegmentColors(drivers: seq<int>, stints: seq<Stint>, totalLaps: int): seq<seq<string>> {
    var sortedDrivers := SortAscending(drivers);
    var width := MaxSegments(sortedDrivers, stints, totalLaps);
    seq(width, i requires 0 <= i < width => ColorColumn(sortedDrivers, stints, totalLaps, i))
  }

  /** The body of the forEach for one driver: select, sort and lay out its stints. */
  method SegmentsOf(driver: int, stints: seq<Stint>, totalLaps: int) returns (segments: seq<Segment>)
    ensures segments == DriverSegments(driver, stints, totalLaps)
  {
    var stintsForDriver := StintsFor(driver, stints);
    segments := BuildSegments(stintsForDriver, totalLaps);
  }

  /** The `driverSegments` dictionary: filled one driver at a time by the forEach. */
  method BuildDriverSegments(sortedDrivers: seq<int>, stints: seq<Stint>, totalLaps: int)
    returns (driverSegments: map<int, seq<Segment>>)
    ensures forall k :: 0 <= k < |sortedDrivers| ==> sortedDrivers[k] in driverSegments
    ensures forall d :: d in driverSegments ==> d in sortedDrivers
    ensures forall d :: d in driverSegments ==> driverSegments[d] == DriverSegments(d, stints, totalLaps)
  {
    driverSegments := map[];
    var k := 0;
    while k < |sortedDrivers|
      invariant 0 <= k <= |sortedDrivers|
      invariant forall j :: 0 <= j < k ==> sortedDrivers[j] in driverSegments
      invariant forall d :: d in driverSegments ==> d in sortedDrivers[..k]
      invariant forall d :: d in driverSegments ==> driverSegments[d] == DriverSegments(d, stints, totalLaps)
    {
      var driver := sortedDrivers[k];
      var segments := SegmentsOf(driver, stints, totalLaps);
      driverSegments := driverSegments[driver := segments];
      k := k + 1;
    }
  }

  /** The loop that writes the `seg` fields of one driver's row, position by position. */
  method BuildRow(driver: int, segments: seq<Segment>, maxSegments: nat) returns (row: ChartRow)
    ensures row.driver == Label(driver)
    ensures |row.segs| == maxSegments
    ensures forall i :: 0 <= i < maxSegments ==> row.segs[i] == CellValue(segments, i)
  {
    var obj: seq<int> := [];
    var i := 0;
    while i < maxSegments
      invariant 0 <= i <= maxSegments
      invariant |obj| == i
      invariant forall p :: 0 <= p < i ==> obj[p] == CellValue(segments, p)
    {
      obj := obj + [CellValue(segments, i)];
      i := i + 1;
    }
    row := ChartRow(Label(driver), obj);
  }

  /** The mapping over the sorted drivers: one row per driver, in sorted order. */
  method BuildRows(sortedDrivers: seq<int>, driverSegments: map<int, seq<Segment>>,
                   stints: seq<Stint>, totalLaps: int, maxSegments: nat)
    returns (data: seq<ChartRow>)
    requires forall k :: 0 <= k < |sortedDrivers| ==> sortedDrivers[k] in driverSegments
    requires forall d :: d in driverSegments ==> driverSegments[d] == DriverSegments(d, stints, totalLaps)
    ensures |data| == |sortedDrivers|
    ensures forall k :: 0 <= k < |data| ==> data[k] == Row(sortedDrivers[k], stints, totalLaps, maxSegments)
  {
    data := [];
    var k := 0;
    while k < |sortedDrivers|
      invariant 0 <= k <= |sortedDrivers|
      invariant |data| == k
      invariant forall j :: 0 <= j < k ==> data[j] == Row(sortedDrivers[j], stints, totalLaps, maxSegments)
    {
      var driver := sortedDrivers[k];
      var segments := driverSegments[driver];
      var row := BuildRow(driver, segments, maxSegments);
      RowFromCells(driver, stints, totalLaps, maxSegments, row);
      data := data + [row];
      k := k + 1;
    }
  }

  /** The segment count of each sorted driver, read from the dictionary. */
  function CountsOf(driverSegments: map<int, seq<Segment>>, sortedDrivers: seq<int>): seq<nat>
    requires forall k :: 0 <= k < |sortedDrivers| ==> sortedDrivers[k] in driverSegments
  {
    seq(|sortedDrivers|, k requires 0 <= k < |sortedDrivers| => |driverSegments[sortedDrivers[k]]|)
  }

  lemma CountsOfMatches(driverSegments: map<int, seq<Segment>>, sortedDrivers: seq<int>,
                         stints: seq<Stint>, totalLaps: int)
    requires forall k :: 0 <= k < |sortedDrivers| ==> sortedDrivers[k] in driverSegments
    requires forall d :: d in driverSegments ==> driverSegments[d] == DriverSegments(d, stints, totalLaps)
    ensures CountsOf(driverSegments, sortedDrivers) == SegmentCounts(sortedDrivers, stints, totalLaps)
  {
  }

  /** Column i read from the dictionary: each sorted driver's colour at position i. */
  function ColumnOf(driverSegments: map<int, seq<Segment>>, sortedDrivers: seq<int>, i: nat): seq<string>
    requires forall k :: 0 <= k < |sortedDrivers| ==> sortedDrivers[k] in driverSegments
  {
    seq(|sortedDrivers|, k requires 0 <= k < |sortedDrivers| => CellColor(driverSegments[sortedDrivers[k]], i))
  }

  /** Read from a dictionary holding every driver's bar, the column is the specified one. */
  lemma ColumnOfMatches(driverSegments: map<int, seq<Segment>>, sortedDrivers: seq<int>,
                         stints: seq<Stint>, totalLaps: int, i: nat)
    requires forall k :: 0 <= k < |sortedDrivers| ==> sortedDrivers[k] in driverSegments
    requires forall d :: d in driverSegments ==> driverSegments[d] == DriverSegments(d, stints, totalLaps)
    ensures ColumnOf(driverSegments, sortedDrivers, i) == ColorColumn(sortedDrivers, stints, totalLaps, i)
  {
  }

  /** The colour table loop: entry i lists every driver's colour at position i. */
  method BuildColorTable(sortedDrivers: seq<int>, driverSegments: map<int, seq<Segment>>,
                         stints: seq<Stint>, totalLaps: int, maxSegments: nat)
    returns (segmentColors: seq<seq<string>>)
    requires forall k :: 0 <= k < |sortedDrivers| ==> sortedDrivers[k] in driverSegments
    requires forall d :: d in driverSegments ==> driverSegments[d] == DriverSegments(d, stints, totalLaps)
    ensures |segmentColors| == maxSegments
    ensures forall i :: 0 <= i < maxSegments ==> segmentColors[i] == ColorColumn(sortedDrivers, stints, totalLaps, i)
  {
    segmentColors := [];
    var i := 0;
    while i < maxSegments
      invariant 0 <= i <= maxSegments
      invariant |segmentColors| == i
      invariant forall p :: 0 <= p < i ==> segmentColors[p] == ColorColumn(sortedDrivers, stints, totalLaps, p)
    {
      var column := ColumnOf(driverSegments, sortedDrivers, i);
      ColumnOfMatches(driverSegments, sortedDrivers, stints, totalLaps, i);
      segmentColors := segmentColors + [column];
      i := i + 1;
    }
  }

  /**
   * prepareRechartData: sort the drivers, build every driver's bar, take the
   * largest segment count, then write the rows and the colour table.
   */
  method PrepareRechartData(drivers: seq<int>, stints: seq<Stint>, totalLaps: int)
    returns (data: seq<ChartRow>, segmentColors: seq<seq<string>>)
    ensures data == ChartData(drivers, stints, totalLaps)
    ensures segmentColors == SegmentColors(drivers, stints, totalLaps)
  {
    var sortedDrivers := SortAscending(drivers);
    var driverSegments := BuildDriverSegments(sortedDrivers, stints, totalLaps);
    var counts := CountsOf(driverSegments, sortedDrivers);
    CountsOfMatches(driverSegments, sortedDrivers, stints, totalLaps);
    var maxSegments := MaxOf(counts);
    data := BuildRows(sortedDrivers, driverSegments, stints, totalLaps, maxSegments);
    segmentColors := BuildColorTable(sortedDrivers, driverSegments, stints, totalLaps, maxSegments);
    ChartDataFromRows(drivers, stints, totalLaps, data);
    SegmentColorsFromColumns(drivers, stints, totalLaps, segmentColors);
  }

  /** A row with the driver's label and the driver's cell values at every position is that driver's row. */
  lemma RowFromCells(driver: int, stints: seq<Stint>, totalLaps: int, width: nat, row: ChartRow)
    requires row.driver == Label(driver) && |row.segs| == width
    requires forall i :: 0 <= i < width ==> row.segs[i] == CellValue(DriverSegments(driver, stints, totalLaps), i)
    ensures row == Row(driver, stints, totalLaps, width)
  {
    assert row.segs == Row(driver, stints, totalLaps, width).segs;
  }

  lemma {:induction false} ChartDataFromRows(drivers: seq<int>, stints: seq<Stint>, totalLaps: int, data: seq<ChartRow>)
    requires |data| == |drivers|
    requires forall k :: 0 <= k < |data| ==>
      data[k] == Row(SortAscending(drivers)[k], stints, totalLaps, MaxSegments(SortAscending(drivers), stints, totalLaps))
    ensures data == ChartData(drivers, stints, totalLaps)
  {
  }

  lemma {:induction false} SegmentColorsFromColumns(drivers: seq<int>, stints: seq<Stint>, totalLaps: int,
                                                    segmentColors: seq<seq<string>>)
    requires |segmentColors| == MaxSegments(SortAscending(drivers), stints, totalLaps)
    requires forall i :: 0 <= i < |segmentColors| ==>
      segmentColors[i] == ColorColumn(SortAscending(drivers), stints, totalLaps, i)
    ensures segmentColors == SegmentColors(drivers, stints, totalLaps)
  {
  }

  // ----- what the pivot preserves -----

  /**
   * The table is rectangular: one row per driver (duplicates included), every
   * row and the colour table as wide as the longest bar, every colour entry
   * one per driver; and no driver's bar is cut off.
   */
  lemma ChartShape(drivers: seq<int>, stints: seq<Stint>, totalLaps: int)
    ensures |ChartData(drivers, stints, totalLaps)| == |drivers|
    ensures forall k :: 0 <= k < |drivers| ==>
      ChartData(drivers, stints, totalLaps)[k].driver == Label(SortAscending(drivers)[k])
    ensures forall k :: 0 <= k < |drivers| ==>
      |ChartData(drivers, stints, totalLaps)[k].segs| == |SegmentColors(drivers, stints, totalLaps)|
    ensures forall i :: 0 <= i < |SegmentColors(drivers, stints, totalLaps)| ==>
      |SegmentColors(drivers, stints, totalLaps)[i]| == |drivers|
    ensures forall k :: 0 <= k < |drivers| ==>
      |DriverSegments(SortAscending(drivers)[k], stints, totalLaps)| <= |SegmentColors(drivers, stints, totalLaps)|
  {
    var sd := SortAscending(drivers);
    var counts := SegmentCounts(sd, stints, totalLaps);
    var width := MaxSegments(sd, stints, totalLaps);
    forall k | 0 <= k < |drivers|
      ensures ChartData(drivers, stints, totalLaps)[k].driver == Label(sd[k])
      ensures |DriverSegments(sd[k], stints, totalLaps)| <= |SegmentColors(drivers, stints, totalLaps)|
    {
      assert ChartData(drivers, stints, totalLaps)[k] == Row(sd[k], stints, totalLaps, width);
      assert counts[k] == |DriverSegments(sd[k], stints, totalLaps)|;
    }
  }

  /**
   * Reading the table back: for the k-th driver in ascending order, position
   * i of its row and entry k of colour column i are the value and colour of
   * the driver's segment i, and 0 / "transparent" past the end of its bar.
   */
  lemma CellsRecoverSegments(drivers: seq<int>, stints: seq<Stint>, totalLaps: int, k: nat, i: nat)
    requires k < |drivers| && i < |SegmentColors(drivers, stints, totalLaps)|
    ensures ChartData(drivers, stints, totalLaps)[k].driver == Label(SortAscending(drivers)[k])
    ensures var segs := DriverSegments(SortAscending(drivers)[k], stints, totalLaps);
      i < |segs| ==>
        ChartData(drivers, stints, totalLaps)[k].segs[i] == segs[i].value &&
        SegmentColors(drivers, stints, totalLaps)[i][k] == segs[i].color
    ensures var segs := DriverSegments(SortAscending(drivers)[k], stints, totalLaps);
      i >= |segs| ==>
        ChartData(drivers, stints, totalLaps)[k].segs[i] == 0 &&
        SegmentColors(drivers, stints, totalLaps)[i][k] == Transparent
  {
    var sd := SortAscending(drivers);
    var segs := DriverSegments(sd[k], stints, totalLaps);
    LayoutColorsNonEmpty(StintsFor(sd[k], stints), totalLaps);
    ChartShape(drivers, stints, totalLaps);
    assert ChartData(drivers, stints, totalLaps)[k] == Row(sd[k], stints, totalLaps, MaxSegments(sd, stints, totalLaps));
    assert SegmentColors(drivers, stints, totalLaps)[i] == ColorColumn(sd, stints, totalLaps, i);
  }

  /**
   * maxSegments is no wider than it must be: it is the segment count of some
   * driver, so every column position is a real segment of that driver; with
   * no drivers there are no columns.
   */
  lemma WidthTight(drivers: seq<int>, stints: seq<Stint>, totalLaps: int)
    ensures drivers == [] ==> SegmentColors(drivers, stints, totalLaps) == []
    ensures drivers != [] ==>
      exists k :: 0 <= k < |drivers| &&
        |DriverSegments(SortAscending(drivers)[k], stints, totalLaps)| == |SegmentColors(drivers, stints, totalLaps)|
  {
    var sd := SortAscending(drivers);
    var counts := SegmentCounts(sd, stints, totalLaps);
    if drivers != [] {
      var k :| 0 <= k < |counts| && counts[k] == MaxOf(counts);
      assert |DriverSegments(sd[k], stints, totalLaps)| == |SegmentColors(drivers, stints, totalLaps)|;
    }
  }

  /**
   * Rows come in ascending driver order; for a driver list without repeats
   * (as the page passes) the row labels are pairwise different.
   */
  lemma RowsOrdered(drivers: seq<int>, stints: seq<Stint>, totalLaps: int)
    requires Distinct(drivers)
    ensures forall j, k :: 0 <= j < k < |drivers| ==>
      SortAscending(drivers)[j] < SortAscending(drivers)[k]
      && ChartData(drivers, stints, totalLaps)[j].driver != ChartData(drivers, stints, totalLaps)[k].driver
  {
    var sd := SortAscending(drivers);
    var data := ChartData(drivers, stints, totalLaps);
    SortDistinctStrictlyAscending(drivers);
    forall j, k | 0 <= j < k < |drivers| ensures data[j].driver != data[k].driver {
      assert data[j].driver == Label(sd[j]) && data[k].driver == Label(sd[k]);
      LabelInjective(sd[j], sd[k]);
    }
  }

  /** The result depends on which drivers are listed, not on the order they are listed in. */
  lemma ChartIgnoresDriverOrder(drivers: seq<int>, others: seq<int>, stints: seq<Stint>, totalLaps: int)
    requires multiset(drivers) == multiset(others)
    ensures ChartData(drivers, stints, totalLaps) == ChartData(others, stints, totalLaps)
    ensures SegmentColors(drivers, stints, totalLaps) == SegmentColors(others, stints, totalLaps)
  {
    SortIgnoresInputOrder(drivers, others);
  }

  /**
   * One driver on soft tyres for laps 1-10 and hard tyres for laps 10-20 of a
   * 20-lap race: one row `#1` with segments 9 and 10, coloured soft then hard,
   * and no filler.
   */
  lemma TwoStintExample()
    ensures ChartData([1], [Stint(1, 1, 10, "SOFT"), Stint(1, 10, 20, "HARD")], 20) == [ChartRow("#1", [9, 10])]
    ensures SegmentColors([1], [Stint(1, 1, 10, "SOFT"), Stint(1, 10, 20, "HARD")], 20) == [["#ff2d55"], ["#ffffff"]]
  {
    var stints := [Stint(1, 1, 10, "SOFT"), Stint(1, 10, 20, "HARD")];
    assert ForDriver(1, stints) == stints by {
      assert ForDriver(1, stints[1..][1..]) == [];
    }
    assert SortByStart(stints) == stints by {
      assert SortByStart(stints[1..][1..]) == [];
      assert SortByStart(stints[1..]) == stints[1..];
    }
    assert StintsFor(1, stints) == stints;
    assert StintSegments(stints) == [StintSegment(stints[0]), StintSegment(stints[1])];
    assert CompoundColor("SOFT") == "#ff2d55" && CompoundColor("HARD") == "#ffffff";
    var segs := DriverSegments(1, stints, 20);
    assert segs == StintSegments(stints);
    assert segs == [Segment(9, "#ff2d55"), Segment(10, "#ffffff")];
    assert SortAscending([1]) == [1];
    assert SegmentCounts([1], stints, 20) == [2];
    assert MaxOf([2]) == 2;
    assert Label(1) == "#1";
    assert Row(1, stints, 20, 2).segs == [9, 10];
    assert ColorColumn([1], stints, 20, 0) == ["#ff2d55"];
    assert ColorColumn([1], stints, 20, 1) == ["#ffffff"];
  }
}
