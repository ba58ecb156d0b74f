/**
 * One driver's bar: the list of (lap count, colour) segments that
 * prepareRechartData builds for a driver from that driver's stints.
 *
 * Layout is the specification: an optional leading filler, one segment per
 * stint, an optional trailing filler, or a single full-width filler when the
 * driver has no stint.  BuildSegments is the step-by-step construction
 * the source performs with `segments.push(...)`, proved equal to it.
 */
module Segments {
  import opened Stints

  /** Filler for the laps before the first stint, when it starts after lap 1. */
  function LeadingFiller(ss: seq<Stint>): seq<Segment> {
    if |ss| > 0 && ss[0].lapStart > 1 then [Segment(ss[0].lapStart - 1, Transparent)] else []
  }

  /** A stint's own segment: `lap_end - lap_start` laps in the compound's colour. */
  function StintSegment(t: Stint): Segment {
    Segment(t.lapEnd - t.lapStart, CompoundColor(t.compound))
  }

  /** One segment per stint, in stint order. */
  function StintSegments(ss: seq<Stint>): seq<Segment> {
    seq(|ss|, j requires 0 <= j < |ss| => StintSegment(ss[j]))
  }

  /** Filler from the end of the last stint up to `totalLaps`, when it ends earlier. */
  function TrailingFiller(ss: seq<Stint>, totalLaps: int): seq<Segment> {
    if |ss| > 0 && ss[|ss| - 1].lapEnd < totalLaps
    then [Segment(totalLaps - ss[|ss| - 1].lapEnd, Transparent)]
    else []
  }

  /** The stint segments of a longer prefix: one more segment at the end. */
  lemma StintSegmentsSnoc(ss: seq<Stint>, j: nat)
    requires j < |ss|
    ensures StintSegments(ss[..j + 1]) == StintSegments(ss[..j]) + [StintSegment(ss[j])]
  {
    assert ss[..j + 1][..j] == ss[..j];
  }

  /** The bar drawn for stints `ss` (already ordered by lap_start). */
  function Layout(ss: seq<Stint>, totalLaps: int): seq<Segment> {
    if ss == [] then [Segment(totalLaps, Transparent)]
    else LeadingFiller(ss) + StintSegments(ss) + TrailingFiller(ss, totalLaps)
  }

  /** `driverSegments[driver]`: the bar of one driver. */
  function DriverSegments(driver: int, stints: seq<Stint>, totalLaps: int): seq<Segment> {
    Layout(StintsFor(driver, stints), totalLaps)
  }

  /** Number of leading fillers: 1 exactly when the first stint starts after lap 1. */
  function LeadCount(ss: seq<Stint>): nat {
    if |ss| > 0 && ss[0].lapStart > 1 then 1 else 0
  }

  /** Number of trailing fillers: 1 exactly when the last stint ends before `totalLaps`. */
  function TrailCount(ss: seq<Stint>, totalLaps: int): nat {
    if |ss| > 0 && ss[|ss| - 1].lapEnd < totalLaps then 1 else 0
  }

  /** Where stint j of a driver with stints sits in the bar: right after the leading filler, if any. */
  lemma LayoutStintAt(ss: seq<Stint>, totalLaps: int, j: nat)
    requires j < |ss|
    ensures |Layout(ss, totalLaps)| == |ss| + LeadCount(ss) + TrailCount(ss, totalLaps)
    ensures Layout(ss, totalLaps)[LeadCount(ss) + j] == StintSegment(ss[j])
  {
    assert ss != [];
  }

  /**
   * The bar of a driver with stints, position by position: |ss| + lead +
   * trail segments; the leading filler covers laps 1 .. lap_start - 1; stint
   * j sits at position lead + j; the trailing filler covers the laps after
   * the last stint's lap_end.
   */
  lemma LayoutShape(ss: seq<Stint>, totalLaps: int)
    requires ss != []
    ensures |Layout(ss, totalLaps)| == |ss| + LeadCount(ss) + TrailCount(ss, totalLaps)
    ensures LeadCount(ss) == 1 ==> Layout(ss, totalLaps)[0] == Segment(ss[0].lapStart - 1, Transparent)
    ensures forall j :: 0 <= j < |ss| ==> Layout(ss, totalLaps)[LeadCount(ss) + j] == StintSegment(ss[j])
    ensures TrailCount(ss, totalLaps) == 1 ==>
      Layout(ss, totalLaps)[|Layout(ss, totalLaps)| - 1] == Segment(totalLaps - ss[|ss| - 1].lapEnd, Transparent)
  {
    forall j | 0 <= j < |ss| ensures Layout(ss, totalLaps)[LeadCount(ss) + j] == StintSegment(ss[j]) {
      LayoutStintAt(ss, totalLaps, j);
    }
    var r := Layout(ss, totalLaps);
    var a, mid, c := LeadingFiller(ss), StintSegments(ss), TrailingFiller(ss, totalLaps);
    assert r == a + mid + c;
    if TrailCount(ss, totalLaps) == 1 {
      assert r[|r| - 1] == c[0];
    }
  }

  /** A driver with no stint gets exactly one full-width filler, and only such a driver does. */
  lemma NoStintsFullWidth(driver: int, stints: seq<Stint>, totalLaps: int)
    ensures DriverSegments(driver, stints, totalLaps) == [Segment(totalLaps, Transparent)]
        <==> forall i :: 0 <= i < |stints| ==> stints[i].driverNumber != driver
  {
    var ss := StintsFor(driver, stints);
    if ss != [] {
      StintsForCount(driver, stints, ss[0]);
      assert multiset(ss)[ss[0]] > 0;
      var i :| 0 <= i < |stints| && stints[i] == ss[0];
      LayoutStintAt(ss, totalLaps, 0);
    } else {
      forall i | 0 <= i < |stints| ensures stints[i].driverNumber != driver {
        StintsForCount(driver, stints, stints[i]);
      }
    }
  }

  /** Number of segments that are drawn in a colour, i.e. that are not fillers. */
  function Colored(segs: seq<Segment>): nat {
    if segs == [] then 0
    else Colored(segs[..|segs| - 1]) + (if segs[|segs| - 1].color != Transparent then 1 else 0)
  }

  lemma {:induction false} ColoredAppend(a: seq<Segment>, b: seq<Segment>)
    ensures Colored(a + b) == Colored(a) + Colored(b)
    decreases |b|
  {
    if b != [] {
      var ab := a + b;
      assert ab[..|ab| - 1] == a + b[..|b| - 1];
      assert ab[|ab| - 1] == b[|b| - 1];
      ColoredAppend(a, b[..|b| - 1]);
      assert Colored(ab) == Colored(a + b[..|b| - 1]) + (if b[|b| - 1].color != Transparent then 1 else 0);
    } else {
      assert a + b == a;
    }
  }

  lemma {:induction false} StintSegmentsColored(ss: seq<Stint>)
    ensures Colored(StintSegments(ss)) == |ss|
  {
    if ss != [] {
      var r := StintSegments(ss);
      assert r[..|r| - 1] == StintSegments(ss[..|ss| - 1]);
      StintSegmentsColored(ss[..|ss| - 1]);
    }
  }

  /**
   * Each stint contributes exactly one coloured segment and every filler is
   * transparent: a driver's bar shows as many coloured segments as the driver
   * has stints.
   */
  lemma DriverColoredSegments(driver: int, stints: seq<Stint>, totalLaps: int)
    ensures Colored(DriverSegments(driver, stints, totalLaps)) == |StintsFor(driver, stints)|
  {
    var ss := StintsFor(driver, stints);
    if ss != [] {
      ColoredAppend(LeadingFiller(ss), StintSegments(ss));
      ColoredAppend(LeadingFiller(ss) + StintSegments(ss), TrailingFiller(ss, totalLaps));
      StintSegmentsColored(ss);
      assert Colored(LeadingFiller(ss)) == 0;
      assert Colored(TrailingFiller(ss, totalLaps)) == 0;
    }
  }

  /**
   * A bar with stints has no filler at all exactly when the first stint
   * starts on lap 1 (or earlier) and the last one reaches `totalLaps`.
   */
  lemma NoFillerIff(ss: seq<Stint>, totalLaps: int)
    requires ss != []
    ensures (forall i :: 0 <= i < |Layout(ss, totalLaps)| ==> Layout(ss, totalLaps)[i].color != Transparent)
        <==> ss[0].lapStart <= 1 && ss[|ss| - 1].lapEnd >= totalLaps
  {
    LayoutShape(ss, totalLaps);
    var r := Layout(ss, totalLaps);
    if ss[0].lapStart <= 1 && ss[|ss| - 1].lapEnd >= totalLaps {
      forall i | 0 <= i < |r| ensures r[i].color != Transparent {
        assert r[0 + i] == StintSegment(ss[i]);
      }
    } else if ss[0].lapStart > 1 {
      assert r[0].color == Transparent;
    } else {
      assert r[|r| - 1].color == Transparent;
    }
  }

  /** Every segment of a bar has a colour: the filler colour or a compound colour, never "". */
  lemma LayoutColorsNonEmpty(ss: seq<Stint>, totalLaps: int)
    ensures forall i :: 0 <= i < |Layout(ss, totalLaps)| ==> Layout(ss, totalLaps)[i].color != ""
  {
    if ss != [] {
      var a, b, c := LeadingFiller(ss), StintSegments(ss), TrailingFiller(ss, totalLaps);
      assert forall i :: 0 <= i < |b| ==> b[i].color == CompoundColor(ss[i].compound);
      assert Layout(ss, totalLaps) == a + b + c;
    }
  }

  // ----- lap totals -----

  /** Sum of the segment values of a bar. */
  function Total(segs: seq<Segment>): int {
    if segs == [] then 0 else Total(segs[..|segs| - 1]) + segs[|segs| - 1].value
  }

  lemma {:induction false} TotalAppend(a: seq<Segment>, b: seq<Segment>)
    ensures Total(a + b) == Total(a) + Total(b)
    decreases |b|
  {
    if b != [] {
      var ab := a + b;
      assert ab[..|ab| - 1] == a + b[..|b| - 1];
      assert ab[|ab| - 1] == b[|b| - 1];
      TotalAppend(a, b[..|b| - 1]);
      assert Total(ab) == Total(a + b[..|b| - 1]) + b[|b| - 1].value;
    } else {
      assert a + b == a;
    }
  }

  /**
   * Sum over consecutive stints of the laps between one stint's lap_end and
   * the next one's lap_start (0 for back-to-back stints that share a lap).
   */
  function Gaps(ss: seq<Stint>): int {
    if |ss| <= 1 then 0
    else Gaps(ss[..|ss| - 1]) + (ss[|ss| - 1].lapStart - ss[|ss| - 2].lapEnd)
  }

  /** The stint segments telescope: together with the gaps they span first lap_start .. last lap_end. */
  lemma {:induction false} StintSegmentsTotal(ss: seq<Stint>)
    requires ss != []
    ensures Total(StintSegments(ss)) + Gaps(ss) == ss[|ss| - 1].lapEnd - ss[0].lapStart
  {
    var r := StintSegments(ss);
    if |ss| > 1 {
      var init := ss[..|ss| - 1];
      assert r[..|r| - 1] == StintSegments(init);
      StintSegmentsTotal(init);
    }
  }

  /**
   * What a driver's bar adds up to.  It is not `totalLaps` in general: with
   * stints inside laps 1 .. totalLaps it is `totalLaps - 1 - Gaps(ss)`, so
   * back-to-back stints that share their boundary lap come to totalLaps - 1,
   * and stints given as disjoint inclusive ranges (next lap_start = lap_end + 1)
   * come to totalLaps - |ss|.
   */
  lemma {:induction false} BarTotal(ss: seq<Stint>, totalLaps: int)
    requires ss != [] && ss[0].lapStart >= 1 && ss[|ss| - 1].lapEnd <= totalLaps
    ensures Total(Layout(ss, totalLaps)) == totalLaps - 1 - Gaps(ss)
  {
    TotalAppend(LeadingFiller(ss), StintSegments(ss));
    TotalAppend(LeadingFiller(ss) + StintSegments(ss), TrailingFiller(ss, totalLaps));
    StintSegmentsTotal(ss);
    assert Total([Segment(ss[0].lapStart - 1, Transparent)]) == ss[0].lapStart - 1;
    assert Total([Segment(totalLaps - ss[|ss| - 1].lapEnd, Transparent)]) == totalLaps - ss[|ss| - 1].lapEnd;
  }

  /** A driver without stints: the single filler spans exactly `totalLaps`. */
  lemma NoStintsTotal(totalLaps: int)
    ensures Total(Layout([], totalLaps)) == totalLaps
  {
    assert Layout([], totalLaps)[..0] == [];
  }

  /**
   * The forEach body of prepareRechartData for one driver, once that
   * driver's stints are selected and ordered: push the leading filler, one
   * segment per stint and the trailing filler, or the single full-width
   * filler when there is no stint.
   */
  method BuildSegments(stintsForDriver: seq<Stint>, totalLaps: int) returns (segments: seq<Segment>)
    ensures segments == Layout(stintsForDriver, totalLaps)
  {
    segments := [];
    if |stintsForDriver| > 0 && stintsForDriver[0].lapStart > 1 {
      segments := segments + [Segment(stintsForDriver[0].lapStart - 1, Transparent)];
    }
    assert segments == LeadingFiller(stintsForDriver);
    if |stintsForDriver| == 0 {
      segments := segments + [Segment(totalLaps, Transparent)];
    } else {
      segments := PushStintSegments(segments, stintsForDriver);
      var lastStint := stintsForDriver[|stintsForDriver| - 1];
      if lastStint.lapEnd < totalLaps {
        segments := segments + [Segment(totalLaps - lastStint.lapEnd, Transparent)];
        assert [Segment(totalLaps - lastStint.lapEnd, Transparent)] == TrailingFiller(stintsForDriver, totalLaps);
      } else {
        assert segments == segments + TrailingFiller(stintsForDriver, totalLaps);
      }
    }
  }

  /** The loop over the driver's stints: one segment per stint, appended in order. */
  method PushStintSegments(segments: seq<Segment>, stintsForDriver: seq<Stint>) returns (r: seq<Segment>)
    ensures r == segments + StintSegments(stintsForDriver)
  {
    r := segments;
    var j := 0;
    while j < |stintsForDriver|
      invariant 0 <= j <= |stintsForDriver|
      invariant r == segments + StintSegments(stintsForDriver[..j])
    {
      var stint := stintsForDriver[j];
      StintSegmentsSnoc(stintsForDriver, j);
      r := r + [Segment(stint.lapEnd - stint.lapStart, CompoundColor(stint.compound))];
      j := j + 1;
    }
    assert stintsForDriver[..j] == stintsForDriver;
  }
}
