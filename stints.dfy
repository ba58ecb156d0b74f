/**
 * Stint records as the racing-data API delivers them, the segment record the
 * chart is built from, the compound colour table, and the per-driver stint
 * selection: filter by driver, then sort by lap_start.
 */
module Stints {
  import opened Seqs

  /** One continuous range of laps a driver ran on one tyre set. */
  datatype Stint = Stint(driverNumber: int, lapStart: int, lapEnd: int, compound: string)

  /** One piece of a stacked bar: a lap count and a display colour. */
  datatype Segment = Segment(value: int, color: string)

  /** Colour of a filler segment: laps for which there is no stint. */
  const Transparent: string := "transparent"

  /** Colour of a stint whose compound is not in the table. */
  const FallbackColor: string := "#888"

  const CompoundColors: map<string, string> := map[
    "SOFT" := "#ff2d55",
    "MEDIUM" := "#ffcc00",
    "HARD" := "#ffffff",
    "INTERMEDIATE" := "#4cd964",
    "WET" := "#0091ea"
  ]

  /**
   * The compound's colour: the table's colour, or the fallback
   * for an unknown compound; never the filler colour, so a stint segment can
   * always be told apart from a gap.
   */
  function CompoundColor(compound: string): (c: string)
    ensures c != "" && c != Transparent
    ensures c == FallbackColor <==> compound !in CompoundColors
    ensures compound in CompoundColors ==> c == CompoundColors[compound]
  {
    if compound in CompoundColors && CompoundColors[compound] != "" then CompoundColors[compound]
    else FallbackColor
  }

  // ----- selecting one driver's stints -----

  /** The stints of one driver, order kept. */
  function ForDriver(driver: int, stints: seq<Stint>): seq<Stint> {
    if stints == [] then []
    else (if stints[0].driverNumber == driver then [stints[0]] else []) + ForDriver(driver, stints[1..])
  }

  /** The filter keeps each of the driver's stints as often as it occurs, and nothing else. */
  lemma {:induction false} ForDriverCount(driver: int, stints: seq<Stint>, t: Stint)
    ensures multiset(ForDriver(driver, stints))[t] == if t.driverNumber == driver then multiset(stints)[t] else 0
  {
    if stints != [] {
      assert stints == [stints[0]] + stints[1..];
      ForDriverCount(driver, stints[1..], t);
    }
  }

  /** Ordered by lap_start (ties in any order). */
  predicate ByStart(ss: seq<Stint>) {
    forall i, j :: 0 <= i < j < |ss| ==> ss[i].lapStart <= ss[j].lapStart
  }

  /** Places `t` in front of the first stint that does not start earlier. */
  function InsertByStart(t: Stint, ss: seq<Stint>): (r: seq<Stint>)
    requires ByStart(ss)
    ensures ByStart(r)
    ensures |r| == |ss| + 1
    ensures r[0] == t || (ss != [] && r[0] == ss[0])
  {
    if ss == [] || t.lapStart <= ss[0].lapStart then [t] + ss
    else [ss[0]] + InsertByStart(t, ss[1..])
  }

  /**
   * The sort by lap_start: ordered by lap_start; a
   * permutation of its input (SortByStartPermutes) and stable (SortByStartStable).
   */
  function SortByStart(ss: seq<Stint>): (r: seq<Stint>)
    ensures ByStart(r)
    ensures |r| == |ss|
  {
    if ss == [] then [] else InsertByStart(ss[0], SortByStart(ss[1..]))
  }

  lemma {:induction false} InsertByStartPermutes(t: Stint, ss: seq<Stint>)
    requires ByStart(ss)
    ensures multiset(InsertByStart(t, ss)) == multiset(ss) + multiset{t}
  {
    if ss != [] && t.lapStart > ss[0].lapStart {
      InsertByStartPermutes(t, ss[1..]);
      HeadTailMultiset(ss);
    }
  }

  /** Sorting neither loses nor duplicates a stint. */
  lemma {:induction false} SortByStartPermutes(ss: seq<Stint>)
    ensures multiset(SortByStart(ss)) == multiset(ss)
  {
    if ss != [] {
      var rest := SortByStart(ss[1..]);
      SortByStartPermutes(ss[1..]);
      InsertByStartPermutes(ss[0], rest);
      HeadTailMultiset(ss);
    }
  }

  /** The stints that start on lap `k`, in their order in `ss`. */
  function WithStart(ss: seq<Stint>, k: int): seq<Stint> {
    if ss == [] then []
    else (if ss[0].lapStart == k then [ss[0]] else []) + WithStart(ss[1..], k)
  }

  lemma {:induction false} WithStartInsert(t: Stint, ss: seq<Stint>, k: int)
    requires ByStart(ss)
    ensures WithStart(InsertByStart(t, ss), k) == (if t.lapStart == k then [t] else []) + WithStart(ss, k)
  {
    var r := InsertByStart(t, ss);
    if ss != [] && t.lapStart > ss[0].lapStart {
      assert r[0] == ss[0] && r[1..] == InsertByStart(t, ss[1..]);
      WithStartInsert(t, ss[1..], k);
      if ss[0].lapStart == k {
        assert WithStart(r, k) == [ss[0]] + WithStart(r[1..], k);
      } else {
        assert WithStart(r, k) == WithStart(r[1..], k);
      }
    } else {
      assert r[0] == t && r[1..] == ss;
    }
  }

  /**
   * The sort is stable (as JavaScript's Array.prototype.sort is): stints that
   * start on the same lap keep their input order.  With ByStart this fixes the
   * result completely.
   */
  lemma {:induction false} SortByStartStable(ss: seq<Stint>, k: int)
    ensures WithStart(SortByStart(ss), k) == WithStart(ss, k)
  {
    if ss != [] {
      SortByStartStable(ss[1..], k);
      WithStartInsert(ss[0], SortByStart(ss[1..]), k);
    }
  }

  /** One driver's stints, ordered by lap_start. */
  function StintsFor(driver: int, stints: seq<Stint>): (r: seq<Stint>)
    ensures ByStart(r)
  {
    SortByStart(ForDriver(driver, stints))
  }

  /**
   * The selection holds each stint of the driver exactly as often as the
   * input does, and no stint of another driver.
   */
  lemma StintsForCount(driver: int, stints: seq<Stint>, t: Stint)
    ensures multiset(StintsFor(driver, stints))[t] == if t.driverNumber == driver then multiset(stints)[t] else 0
  {
    SortByStartPermutes(ForDriver(driver, stints));
    ForDriverCount(driver, stints, t);
  }

  /** Stints of a driver that start on the same lap keep their order from the input. */
  lemma StintsForStable(driver: int, stints: seq<Stint>, k: int)
    ensures WithStart(StintsFor(driver, stints), k) == WithStart(ForDriver(driver, stints), k)
  {
    SortByStartStable(ForDriver(driver, stints), k);
  }
}
