# F1 tyre-stint chart: a Dafny model

F1Viz is a browser dashboard for Formula 1 data. Its tyre page lets the user
type a Grand Prix name. The page turns the name into a session key, fetches
that session's tyre stints, and draws one stacked horizontal bar per driver.
Each segment of a bar is either a stint, coloured by its tyre compound, or a
transparent filler for laps the driver has no stint for.

This project models the logic of that page: the pivot `prepareRechartData`
and the handler code around it. Each part is proved against a specification.

- **`seqs.dfy` (Seqs):** one multiset fact shared by the two sorts.
- **`drivers.dfy` (Drivers):**
  - the numeric driver sort, proved ascending, a permutation, and the only ascending arrangement of its input;
  - the row label `#<number>`, proved injective through a decimal round trip.
- **`stints.dfy` (Stints):**
  - the stint and segment records and the compound colour table with its `#888` fallback;
  - a driver's stint selection: a filter followed by a stable sort on `lap_start`.
- **`segments.dfy` (Segments):**
  - `Layout`, the specification of one driver's bar;
  - the push-by-push construction `BuildSegments`, proved equal to it;
  - lemmas on the bar's shape, its fillers, its colours and its lap total.
- **`chart.dfy` (Chart):**
  - `PrepareRechartData`, the pivot, written with the source's loops and proved equal to `ChartData` and `SegmentColors`;
  - lemmas on the pivot: the table is rectangular, cells read back as each driver's segments, no column is padding only, rows are ordered and labels distinct, driver input order does not matter, and the two-stint example.
- **`session.dfy` (Session):**
  - the Grand Prix lookup: JavaScript `trim`, lowercasing, and find-first over the 24-entry table;
  - the unique driver list and `totalLaps` derived from fetched stints;
  - the page state and the fetch transition;
  - the render guard `totalLaps > 0 ? ... : empty`.

The source keys `seg0`, `seg1`, … are sequence positions 0, 1, … here. The
`segmentColors` record becomes a sequence of columns. The `driverSegments`
record becomes a `map<int, seq<Segment>>`.

One might expect every driver's segments to add up to `totalLaps`. The
code does not do that, and the model follows the code:

- A stint segment is `lap_end - lap_start` laps wide.
- So with stints that start on lap 1 or later and end by `totalLaps`, a bar adds up to `totalLaps - 1 - Gaps`. Gaps is the sum of `next.lap_start - previous.lap_end` (`Segments.BarTotal`).
- Back-to-back stints that share their boundary lap therefore give `totalLaps - 1`. The two-stint example (`Chart.TwoStintExample`) gives 9 + 10 = 19 for 20 laps.

## Model

| member | source | states |
|---|---|---|
| Drivers.SortAscending | app/tyre/page.tsx:77 | the sorted driver list is in non-decreasing numeric order and as long as the input |
| Drivers.SortAscendingPermutes | app/tyre/page.tsx:77 | sorting keeps every driver number with its multiplicity |
| Drivers.AscendingPermutationUnique | app/tyre/page.tsx:77 | two ascending arrangements of the same numbers are equal, so any correct numeric sort gives the same order |
| Drivers.SortIgnoresInputOrder | app/tyre/page.tsx:77 | two driver lists with the same numbers sort to the same list |
| Drivers.SortDistinctStrictlyAscending | app/tyre/page.tsx:77 | a driver list without repeats sorts to a strictly increasing list |
| Drivers.NatToDecimal | app/tyre/page.tsx:123 | the numeral is non-empty, digits only, and has no leading zero unless the number is 0 |
| Drivers.DecimalRoundTrip | app/tyre/page.tsx:123 | reading the numeral back gives the number |
| Drivers.LabelInjective | app/tyre/page.tsx:123 | two drivers share the label `#n` exactly when they are the same number |
| Stints.CompoundColor | app/tyre/page.tsx:20-26 | a known compound gets its table colour; the colour is `#888` exactly for an unknown compound; it is never empty and never the filler colour |
| Stints.ForDriverCount | app/tyre/page.tsx:82-83 | the filter keeps each stint of the driver as often as it occurs and drops every stint of other drivers |
| Stints.SortByStart | app/tyre/page.tsx:84 | the sorted stints are ordered by lap_start and as many as the input |
| Stints.SortByStartPermutes | app/tyre/page.tsx:84 | the stint sort neither loses nor duplicates a stint |
| Stints.SortByStartStable | app/tyre/page.tsx:84 | stints starting on the same lap keep their input order, as the stable JavaScript sort does |
| Stints.StintsFor | app/tyre/page.tsx:82-84 | a driver's selected stints are ordered by lap_start |
| Stints.StintsForCount | app/tyre/page.tsx:82-84 | the selection holds exactly the driver's stints with their multiplicities |
| Stints.StintsForStable | app/tyre/page.tsx:82-84 | within one start lap, the selection keeps the order in which the stints were fetched |
| Segments.LayoutStintAt | app/tyre/page.tsx:98-103 | stint j of the driver is segment LeadCount + j, with `lap_end - lap_start` laps in its compound colour |
| Segments.LayoutShape | app/tyre/page.tsx:86-112 | the bar has stints + leading + trailing segments; the leading filler is `lap_start - 1` laps, the trailing filler `totalLaps - last.lap_end` |
| Segments.NoStintsFullWidth | app/tyre/page.tsx:95-96 | a driver's bar is the single filler `{totalLaps, transparent}` exactly when the driver has no stint |
| Segments.DriverColoredSegments | app/tyre/page.tsx:86-112 | a driver's bar has exactly one coloured segment per stint of that driver |
| Segments.NoFillerIff | app/tyre/page.tsx:88-93 | a bar with stints has no transparent segment exactly when the first stint starts by lap 1 and the last one reaches totalLaps |
| Segments.LayoutColorsNonEmpty | app/tyre/page.tsx:86-112 | no segment has an empty colour, so the `\|\| "transparent"` fallback when reading colours never applies to a real segment |
| Segments.StintSegmentsTotal | app/tyre/page.tsx:98-103 | the stint segments plus the gaps between stints span first lap_start to last lap_end |
| Segments.BarTotal | app/tyre/page.tsx:86-112 | with stints inside laps 1 .. totalLaps, a bar adds up to `totalLaps - 1 - Gaps`, not to totalLaps |
| Segments.NoStintsTotal | app/tyre/page.tsx:95-96 | the bar of a driver without stints adds up to totalLaps |
| Segments.BuildSegments | app/tyre/page.tsx:86-112 | the pushes build exactly the specified bar `Layout` |
| Segments.PushStintSegments | app/tyre/page.tsx:98-103 | the forEach appends one stint segment per stint, in order, after what was already pushed |
| Chart.MaxOf | app/tyre/page.tsx:117-119 | the maximum bounds every count and is one of them; it is 0 for no drivers |
| Chart.SegmentsOf | app/tyre/page.tsx:82-112 | one driver's forEach body produces that driver's specified bar |
| Chart.BuildDriverSegments | app/tyre/page.tsx:79-115 | the dictionary's keys are exactly the sorted drivers, and every entry is that driver's bar |
| Chart.BuildRow | app/tyre/page.tsx:122-128 | the row carries the driver's label and, at every position below maxSegments, the segment's value or 0 |
| Chart.BuildRows | app/tyre/page.tsx:121-129 | row k is the row of the k-th sorted driver |
| Chart.BuildColorTable | app/tyre/page.tsx:131-137 | the table has maxSegments columns, column i giving each driver's colour at i |
| Chart.PrepareRechartData | app/tyre/page.tsx:68-140 | the pivot returns exactly ChartData and SegmentColors |
| Chart.ChartShape | app/tyre/page.tsx:117-137 | one row per driver, row k labelled `#` and the k-th sorted driver; every row and the colour table are maxSegments wide; every column has one entry per driver; no bar is longer than maxSegments |
| Chart.CellsRecoverSegments | app/tyre/page.tsx:121-137 | row k and entry k of each column give the k-th sorted driver's segment values and colours, then 0 and transparent past the end of the bar |
| Chart.WidthTight | app/tyre/page.tsx:117-119 | the table is as wide as some driver's bar, so every column position is a real segment of that driver; with no drivers there are no columns |
| Chart.RowsOrdered | app/tyre/page.tsx:77 | rows follow strictly ascending driver numbers, and with distinct drivers no two rows share a label |
| Chart.ChartIgnoresDriverOrder | app/tyre/page.tsx:77 | the order in which drivers are listed does not change the chart |
| Chart.TwoStintExample | app/tyre/page.tsx:68-140 | soft for laps 1-10 and hard for laps 10-20 of a 20-lap race give row `#1` = [9, 10], coloured soft then hard |
| Session.TrimStart | app/tyre/page.tsx:155 | the result does not start with JavaScript white space |
| Session.TrimEnd | app/tyre/page.tsx:155 | the result does not end with JavaScript white space |
| Session.TrimStartDrops | app/tyre/page.tsx:155 | TrimStart keeps a suffix and drops only white space |
| Session.TrimEndDrops | app/tyre/page.tsx:155 | TrimEnd keeps a prefix and drops only white space |
| Session.TrimIgnoresPadding | app/tyre/page.tsx:155 | white space of any amount around a name does not change its trimmed form |
| Session.TrimLowerCommute | app/tyre/page.tsx:155 | trimming and lowercasing commute |
| Session.FindKey | app/tyre/page.tsx:158-160 | the result is the first entry whose lowercased key equals the wanted name, or none when no entry matches |
| Session.SessionKey | app/tyre/page.tsx:154-166 | a key is found only for a table entry matching the trimmed, lowercased name; no key is found exactly when the name is empty or matches no entry |
| Session.LowerKeysDistinct | app/tyre/page.tsx:29-54 | no two table keys differ only in case, so a name matches at most one entry |
| Session.SessionKeyOfEntry | app/tyre/page.tsx:154-166 | a non-empty name matching entry i gets exactly entry i's session key |
| Session.SessionKeyIgnoresCase | app/tyre/page.tsx:155-160 | names that differ only in letter case get the same result |
| Session.SessionKeyIgnoresPadding | app/tyre/page.tsx:154-160 | surrounding white space does not change the result, even for a name of only white space |
| Session.SessionKeyExactName | app/tyre/page.tsx:154-166 | `Monaco` resolves to 9523 and the empty name to nothing |
| Session.SessionKeyPaddedName | app/tyre/page.tsx:154-166 | `Las Vegas` padded with a space, a tab and a newline resolves to 9644 |
| Session.SessionKeyOtherCase | app/tyre/page.tsx:154-166 | `las vegas` resolves to 9644 |
| Session.SessionKeyUnknownName | app/tyre/page.tsx:154-166 | `Monte Carlo` resolves to nothing |
| Session.Dedup | app/tyre/page.tsx:174-176 | the de-duplicated list has no repeats |
| Session.DedupMembers | app/tyre/page.tsx:174-176 | a number is in the de-duplicated list exactly when it is in the input |
| Session.UniqueDriversExactlyOnce | app/tyre/page.tsx:174-177 | the driver list holds every driver with a stint exactly once, and nobody else |
| Session.TotalLaps | app/tyre/page.tsx:179-183 | totalLaps is at least 0 and at least every lap_end, and it is 0 or some stint's lap_end |
| Session.FetchStints | app/tyre/page.tsx:153-184 | an unresolved name leaves the state unchanged; a resolved one installs the fetched stints with their derived drivers and totalLaps |
| Session.InitialConsistent | app/tyre/page.tsx:143-146 | the initial state (empty name, no stints, no drivers, 0 laps) already has drivers and totalLaps derived from its stints |
| Session.FetchKeepsConsistent | app/tyre/page.tsx:173-183 | drivers and totalLaps stay derived from the stints on show across every fetch |
| Session.Render | app/tyre/page.tsx:186-189 | the chart is pivoted when totalLaps > 0 and empty otherwise |
| Session.NoRowsIffNoLaps | app/tyre/page.tsx:179-189 | in a consistent state the chart has no rows exactly when totalLaps is 0; otherwise it has one row per driver |
| Session.ConsistentBarTotal | app/tyre/page.tsx:179-189 | in a consistent state, each driver's bar whose stints start on lap 1 or later adds up to `totalLaps - 1 - Gaps` |

## Left out

- The HTTP request and JSON decoding (app/tyre/page.tsx:168-171) are not modelled. `fetch` is a parameter mapping a session key to the decoded stint list. A failed request or malformed JSON, which throws in the source, is not modelled.
- React state, `useEffect`, `isClient`, the input box and the JSX (app/tyre/page.tsx:142-151, 191 onward) are not modelled. The four state variables are one `TyreState` value.
- components/Tyre.tsx is not part of this model. It only renders the precomputed rows and colours.
- Chart.MaxOf: `Math.max()` of an empty driver list is `-Infinity` in JavaScript. The model takes 0. Both make the row and colour loops run zero times, so the result is the same.
- Stints.Stint: JavaScript numbers are modelled as unbounded integers. Fractional, `NaN` and non-integer values from the API are not modelled.
- Drivers.IntToDecimal: JavaScript's exponent notation, for magnitudes of 1e21 and more, is not modelled.
- Session.LowerChar: `toLowerCase` is modelled on ASCII letters only. The table keys are ASCII and contain no `k`. The Kelvin sign is the only non-ASCII character that lowercases to an ASCII letter (it becomes `k`). So this cannot change which names match.
- Record lookups that hit `Object.prototype` keys are not modelled.
- Session.Dedup: the order of first appearance is not stated as a contract. `Chart.ChartIgnoresDriverOrder` shows that the order of the driver list does not affect the chart.
- The `console.error` on an unknown name is not modelled. The model returns no key and leaves the state unchanged.
