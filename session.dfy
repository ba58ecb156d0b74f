/**
 * The page handler around the chart: resolving the Grand Prix name typed by
 * the user to a session key, deriving the driver list and the race length
 * from the fetched stints, and the render guard that only pivots when there
 * is at least one lap.
 *
 * The network fetch is a parameter `fetch: int -> seq<Stint>` (session key to
 * decoded stint list); the page's state is a TyreState value.
 */
module Session {
  import opened Stints
  import opened Segments
  import opened Drivers
  import opened Chart

  datatype Option<T> = None | Some(value: T)

  /** `grandPrixMap`, in its declaration order (the order `Object.keys` lists it in). */
  const GrandPrixTable: seq<(string, int)> := [
    ("Bahrain", 9472),
    ("Saudi Arabia", 9480),
    ("Australia", 9488),
    ("Japan", 9496),
    ("China", 9673),
    ("Miami", 9507),
    ("Imola", 9515),
    ("Monaco", 9523),
    ("Canada", 9531),
    ("Spain", 9539),
    ("Austria", 9550),
    ("Britain", 9558),
    ("Hungary", 9566),
    ("Belgium", 9574),
    ("Netherlands", 9582),
    ("Monza", 9590),
    ("Azerbaijan", 9598),
    ("Singapore", 9606),
    ("Austin", 9617),
    ("Mexico", 9625),
    ("Brazil", 9636),
    ("Las Vegas", 9644),
    ("Qatar", 9655),
    ("Abu Dhabi", 9662)
  ]

  // ----- String.prototype.trim and toLowerCase -----

  /** ECMAScript WhiteSpace and LineTerminator code points: what `trim` strips. */
  predicate IsJsSpace(c: char) {
    ('\t' <= c <= '\r') || c == ' ' || c == '\U{A0}' || c == '\U{1680}'
    || ('\U{2000}' <= c <= '\U{200A}') || c == '\U{2028}' || c == '\U{2029}'
    || c == '\U{202F}' || c == '\U{205F}' || c == '\U{3000}' || c == '\U{FEFF}'
  }

  predicate AllSpace(s: string) {
    forall i :: 0 <= i < |s| ==> IsJsSpace(s[i])
  }

  /** Drops the leading white space: what is left does not start with white space (TrimStartDrops). */
  function TrimStart(s: string): (r: string)
    ensures r == [] || !IsJsSpace(r[0])
  {
    if s != [] && IsJsSpace(s[0]) then TrimStart(s[1..]) else s
  }

  /** Drops the trailing white space: what is left does not end with white space (TrimEndDrops). */
  function TrimEnd(s: string): (r: string)
    ensures r == [] || !IsJsSpace(r[|r| - 1])
  {
    if s != [] && IsJsSpace(s[|s| - 1]) then TrimEnd(s[..|s| - 1]) else s
  }

  /** TrimStart keeps a suffix of its input and drops only white space. */
  lemma {:induction false} TrimStartDrops(s: string)
    ensures |TrimStart(s)| <= |s| && TrimStart(s) == s[|s| - |TrimStart(s)|..]
    ensures AllSpace(s[..|s| - |TrimStart(s)|])
  {
    if s != [] && IsJsSpace(s[0]) {
      TrimStartDrops(s[1..]);
      var k := |s| - |TrimStart(s)|;
      assert s[..k] == [s[0]] + s[1..][..k - 1];
    }
  }

  /** TrimEnd keeps a prefix of its input and drops only white space. */
  lemma {:induction false} TrimEndDrops(s: string)
    ensures |TrimEnd(s)| <= |s| && TrimEnd(s) == s[..|TrimEnd(s)|]
    ensures AllSpace(s[|TrimEnd(s)|..])
  {
    if s != [] && IsJsSpace(s[|s| - 1]) {
      var init := s[..|s| - 1];
      TrimEndDrops(init);
      var k := |TrimEnd(s)|;
      assert s[k..] == init[k..] + [s[|s| - 1]];
    }
  }

  /** `s.trim()`. */
  function Trim(s: string): string {
    TrimEnd(TrimStart(s))
  }

  /**
   * `toLowerCase` on one character, ASCII letters only.  Every key of the
   * table is ASCII without the letter k, and the only non-ASCII character
   * that lowercases to ASCII is the Kelvin sign (to 'k'), so restricting to
   * ASCII does not change which names match a key.
   */
  function LowerChar(c: char): char {
    if 'A' <= c <= 'Z' then (c as int + 32) as char else c
  }

  function ToLower(s: string): string {
    seq(|s|, i requires 0 <= i < |s| => LowerChar(s[i]))
  }

  lemma {:induction false} TrimStartPrefix(p: string, t: string)
    requires AllSpace(p)
    ensures TrimStart(p + t) == TrimStart(t)
    decreases |p|
  {
    if p != [] {
      assert (p + t)[1..] == p[1..] + t;
      TrimStartPrefix(p[1..], t);
    } else {
      assert p + t == t;
    }
  }

  lemma {:induction false} TrimEndSuffix(t: string, q: string)
    requires AllSpace(q)
    ensures TrimEnd(t + q) == TrimEnd(t)
    decreases |q|
  {
    if q != [] {
      assert (t + q)[..|t + q| - 1] == t + q[..|q| - 1];
      TrimEndSuffix(t, q[..|q| - 1]);
    } else {
      assert t + q == t;
    }
  }

  /** Once a non-space character is reached, appending to the end changes nothing before it. */
  lemma {:induction false} TrimStartAppend(s: string, q: string)
    requires TrimStart(s) != []
    ensures TrimStart(s + q) == TrimStart(s) + q
    decreases |s|
  {
    if IsJsSpace(s[0]) {
      assert (s + q)[1..] == s[1..] + q;
      TrimStartAppend(s[1..], q);
    }
  }

  /** Surrounding white space, of any kind and amount, does not change the trimmed name. */
  lemma TrimIgnoresPadding(p: string, s: string, q: string)
    requires AllSpace(p) && AllSpace(q)
    ensures Trim(p + s + q) == Trim(s)
  {
    assert p + s + q == p + (s + q);
    TrimStartPrefix(p, s + q);
    if TrimStart(s) != [] {
      TrimStartAppend(s, q);
      TrimEndSuffix(TrimStart(s), q);
    } else {
      TrimStartDrops(s);
      assert AllSpace(s + q);
      TrimStartPrefix(s + q, []);
      assert s + q + [] == s + q;
    }
  }

  lemma {:induction false} TrimStartLower(s: string)
    ensures TrimStart(ToLower(s)) == ToLower(TrimStart(s))
    decreases |s|
  {
    if s != [] {
      assert ToLower(s)[1..] == ToLower(s[1..]);
      TrimStartLower(s[1..]);
    }
  }

  lemma {:induction false} TrimEndLower(s: string)
    ensures TrimEnd(ToLower(s)) == ToLower(TrimEnd(s))
    decreases |s|
  {
    if s != [] {
      assert ToLower(s)[..|s| - 1] == ToLower(s[..|s| - 1]);
      TrimEndLower(s[..|s| - 1]);
    }
  }

  /** Trimming and lowercasing commute: letters are never white space. */
  lemma TrimLowerCommute(s: string)
    ensures Trim(ToLower(s)) == ToLower(Trim(s))
  {
    TrimStartLower(s);
    TrimEndLower(TrimStart(s));
  }

  // ----- the lookup -----

  /**
   * The search over the table's keys in declaration order: the position of
   * the first entry whose lowercased key is `wanted`.
   */
  function FindKey(table: seq<(string, int)>, wanted: string): (r: Option<nat>)
    ensures r.Some? ==> r.value < |table| && ToLower(table[r.value].0) == wanted
    ensures r.Some? ==> forall j :: 0 <= j < r.value ==> ToLower(table[j].0) != wanted
    ensures r.None? ==> forall j :: 0 <= j < |table| ==> ToLower(table[j].0) != wanted
  {
    if table == [] then None
    else if ToLower(table[0].0) == wanted then Some(0)
    else match FindKey(table[1..], wanted)
      case None => None
      case Some(i) => Some(i + 1)
  }

  /** Every session key in the table is a positive number, so `!sessionKey` never rejects a found key. */
  lemma TableKeysPositive()
    ensures forall i :: 0 <= i < |GrandPrixTable| ==> GrandPrixTable[i].1 > 0
  {
  }

  /**
   * The session key for the name in the input box: None for an empty name
   * (the early return), for a name that matches no key once trimmed
   * and lowercased (the lookup falls back to the key "", which the table
   * does not have), or for a key mapped to 0; otherwise the table's number.
   */
  function SessionKey(grandPrix: string): (r: Option<int>)
    ensures r.Some? ==>
      exists i :: 0 <= i < |GrandPrixTable| &&
        ToLower(GrandPrixTable[i].0) == ToLower(Trim(grandPrix)) && GrandPrixTable[i].1 == r.value
    ensures r.None? <==>
      (grandPrix == "" ||
       forall i :: 0 <= i < |GrandPrixTable| ==> ToLower(GrandPrixTable[i].0) != ToLower(Trim(grandPrix)))
  {
    TableKeysPositive();
    if grandPrix == "" then None
    else match FindKey(GrandPrixTable, ToLower(Trim(grandPrix)))
      case None => None
      case Some(i) => if GrandPrixTable[i].1 == 0 then None else Some(GrandPrixTable[i].1)
  }

  /** The first two letters and the length of a string. */
  function Fingerprint(s: string): (char, char, nat)
    requires |s| >= 2
  {
    (s[0], s[1], |s|)
  }

  /** The fingerprints of the lowercased keys, in table order; no two are alike. */
  const KeyFingerprints: seq<(char, char, nat)> := [
    ('b', 'a', 7),
    ('s', 'a', 12),
    ('a', 'u', 9),
    ('j', 'a', 5),
    ('c', 'h', 5),
    ('m', 'i', 5),
    ('i', 'm', 5),
    ('m', 'o', 6),
    ('c', 'a', 6),
    ('s', 'p', 5),
    ('a', 'u', 7),
    ('b', 'r', 7),
    ('h', 'u', 7),
    ('b', 'e', 7),
    ('n', 'e', 11),
    ('m', 'o', 5),
    ('a', 'z', 10),
    ('s', 'i', 9),
    ('a', 'u', 6),
    ('m', 'e', 6),
    ('b', 'r', 6),
    ('l', 'a', 9),
    ('q', 'a', 5),
    ('a', 'b', 9)
  ]

  lemma KeyFingerprint(i: nat)
    requires i < |GrandPrixTable|
    ensures |ToLower(GrandPrixTable[i].0)| >= 2
    ensures Fingerprint(ToLower(GrandPrixTable[i].0)) == KeyFingerprints[i]
  {
    var k := GrandPrixTable[i].0;
    if i < 12 {
      RawFingerprintFirstHalf(i);
    } else {
      RawFingerprintSecondHalf(i);
    }
    assert ToLower(k)[0] == LowerChar(k[0]) && ToLower(k)[1] == LowerChar(k[1]);
  }

  lemma RawFingerprintFirstHalf(i: nat)
    requires i < 12
    ensures |GrandPrixTable[i].0| >= 2
    ensures (LowerChar(GrandPrixTable[i].0[0]), LowerChar(GrandPrixTable[i].0[1]), |GrandPrixTable[i].0|)
      == KeyFingerprints[i]
  {
  }

  lemma RawFingerprintSecondHalf(i: nat)
    requires 12 <= i < |GrandPrixTable|
    ensures |GrandPrixTable[i].0| >= 2
    ensures (LowerChar(GrandPrixTable[i].0[0]), LowerChar(GrandPrixTable[i].0[1]), |GrandPrixTable[i].0|)
      == KeyFingerprints[i]
  {
  }

  lemma KeyFingerprintsDistinct(i: nat, j: nat)
    requires i < j < |KeyFingerprints|
    ensures KeyFingerprints[i] != KeyFingerprints[j]
  {
  }

  /** No two keys of the table differ only in case, so at most one entry can match a name. */
  lemma LowerKeysDistinct()
    ensures forall i, j :: 0 <= i < j < |GrandPrixTable| ==>
      ToLower(GrandPrixTable[i].0) != ToLower(GrandPrixTable[j].0)
  {
    forall i, j | 0 <= i < j < |GrandPrixTable|
      ensures ToLower(GrandPrixTable[i].0) != ToLower(GrandPrixTable[j].0)
    {
      KeyFingerprint(i);
      KeyFingerprint(j);
      KeyFingerprintsDistinct(i, j);
    }
  }

  /** Whatever the case of the letters typed, the same session key results. */
  lemma SessionKeyIgnoresCase(a: string, b: string)
    requires ToLower(a) == ToLower(b)
    ensures SessionKey(a) == SessionKey(b)
  {
    assert |a| == |ToLower(a)| == |ToLower(b)| == |b|;
    TrimLowerCommute(a);
    TrimLowerCommute(b);
  }

  /** White space around the name is ignored (a name of only white space matches nothing). */
  lemma SessionKeyIgnoresPadding(p: string, s: string, q: string)
    requires AllSpace(p) && AllSpace(q)
    ensures SessionKey(p + s + q) == SessionKey(s)
  {
    TrimIgnoresPadding(p, s, q);
    if s == [] && p + s + q != [] {
      assert Trim(s) == [];
      forall i | 0 <= i < |GrandPrixTable| ensures ToLower(GrandPrixTable[i].0) != [] {
        KeyFingerprint(i);
      }
    }
  }

  /** A non-empty name whose trimmed, lowercased form is a lowercased key gets exactly that key's number. */
  lemma SessionKeyOfEntry(grandPrix: string, i: nat)
    requires grandPrix != "" && i < |GrandPrixTable|
    requires ToLower(Trim(grandPrix)) == ToLower(GrandPrixTable[i].0)
    ensures SessionKey(grandPrix) == Some(GrandPrixTable[i].1)
  {
    LowerKeysDistinct();
  }

  /** A name without surrounding white space is its own trimmed form. */
  lemma TrimNothingToTrim(s: string)
    requires s != [] && !IsJsSpace(s[0]) && !IsJsSpace(s[|s| - 1])
    ensures Trim(s) == s
  {
  }

  lemma SessionKeyExactName()
    ensures SessionKey("Monaco") == Some(9523)
    ensures SessionKey("") == None
  {
    TrimNothingToTrim("Monaco");
    SessionKeyOfEntry("Monaco", 7);
  }

  lemma SessionKeyPaddedName()
    ensures SessionKey(" \t" + "Las Vegas" + "\n") == Some(9644)
  {
    TrimIgnoresPadding(" \t", "Las Vegas", "\n");
    TrimNothingToTrim("Las Vegas");
    SessionKeyOfEntry(" \t" + "Las Vegas" + "\n", 21);
  }

  lemma SessionKeyOtherCase()
    ensures SessionKey("las vegas") == Some(9644)
  {
    TrimNothingToTrim("las vegas");
    assert ToLower("las vegas") == ToLower("Las Vegas");
    SessionKeyOfEntry("las vegas", 21);
  }

  lemma SessionKeyUnknownName()
    ensures SessionKey("Monte Carlo") == None
  {
    TrimNothingToTrim("Monte Carlo");
    forall i | 0 <= i < |GrandPrixTable| ensures ToLower(GrandPrixTable[i].0) != ToLower("Monte Carlo") {
      KeyFingerprint(i);
    }
  }

  // ----- drivers and race length from the fetched stints -----

  /** The driver number of each fetched stint, in order. */
  function DriverNumbers(stints: seq<Stint>): seq<int> {
    seq(|stints|, i requires 0 <= i < |stints| => stints[i].driverNumber)
  }

  /** The list spread from a Set of the numbers: each number once, in order of first appearance. */
  function Dedup(xs: seq<int>): (r: seq<int>)
    ensures Distinct(r)
  {
    if xs == [] then []
    else
      var d := Dedup(xs[..|xs| - 1]);
      if xs[|xs| - 1] in d then d else d + [xs[|xs| - 1]]
  }

  /** The set keeps exactly the numbers of the list. */
  lemma {:induction false} DedupMembers(xs: seq<int>, x: int)
    ensures x in Dedup(xs) <==> x in xs
  {
    if xs != [] {
      DedupMembers(xs[..|xs| - 1], x);
      assert xs == xs[..|xs| - 1] + [xs[|xs| - 1]];
    }
  }

  function UniqueDrivers(stints: seq<Stint>): seq<int> {
    Dedup(DriverNumbers(stints))
  }

  /** `uniqueDrivers` lists every driver that has a stint, once, and nobody else. */
  lemma UniqueDriversExactlyOnce(stints: seq<Stint>, d: int)
    ensures Distinct(UniqueDrivers(stints))
    ensures d in UniqueDrivers(stints) <==> exists i :: 0 <= i < |stints| && stints[i].driverNumber == d
  {
    var ns := DriverNumbers(stints);
    DedupMembers(ns, d);
    if d in ns {
      var i :| 0 <= i < |ns| && ns[i] == d;
      assert stints[i].driverNumber == d;
    }
    if exists i :: 0 <= i < |stints| && stints[i].driverNumber == d {
      var i :| 0 <= i < |stints| && stints[i].driverNumber == d;
      assert ns[i] == d;
    }
  }

  /** The largest lap_end of the fetched stints, and 0 when there is none or all are negative. */
  function TotalLaps(stints: seq<Stint>): (m: int)
    ensures m >= 0
    ensures forall i :: 0 <= i < |stints| ==> stints[i].lapEnd <= m
    ensures m == 0 || exists i :: 0 <= i < |stints| && stints[i].lapEnd == m
  {
    if stints == [] then 0
    else
      var m := TotalLaps(stints[..|stints| - 1]);
      if stints[|stints| - 1].lapEnd > m then stints[|stints| - 1].lapEnd else m
  }

  // ----- the page state -----

  /** The `grandPrix`, `stints`, `drivers` and `totalLaps` state of the page. */
  datatype TyreState = TyreState(grandPrix: string, stints: seq<Stint>, drivers: seq<int>, totalLaps: int)

  const InitialState: TyreState := TyreState("", [], [], 0)

  /** Drivers and race length are the ones derived from the stints on show. */
  predicate Consistent(st: TyreState) {
    st.drivers == UniqueDrivers(st.stints) && st.totalLaps == TotalLaps(st.stints)
  }

  /**
   * `fetchStints`: with a resolvable name, the fetched stints replace the old
   * ones together with their drivers and race length; otherwise nothing
   * changes.
   */
  function FetchStints(st: TyreState, fetch: int -> seq<Stint>): (r: TyreState)
    ensures r.grandPrix == st.grandPrix
    ensures SessionKey(st.grandPrix).None? ==> r == st
    ensures SessionKey(st.grandPrix).Some? ==> r.stints == fetch(SessionKey(st.grandPrix).value) && Consistent(r)
  {
    match SessionKey(st.grandPrix)
    case None => st
    case Some(key) =>
      var data := fetch(key);
      st.(stints := data, drivers := UniqueDrivers(data), totalLaps := TotalLaps(data))
  }

  /** The page starts consistent: no stints, no drivers and no laps. */
  lemma InitialConsistent()
    ensures Consistent(InitialState)
  {
  }

  /** Every fetch keeps the page consistent. */
  lemma FetchKeepsConsistent(st: TyreState, fetch: int -> seq<Stint>)
    requires Consistent(st)
    ensures Consistent(FetchStints(st, fetch))
  {
  }

  /** The render guard: the pivot when there is at least one lap, an empty chart otherwise. */
  function Rendered(st: TyreState): (seq<ChartRow>, seq<seq<string>>) {
    if st.totalLaps > 0
    then (ChartData(st.drivers, st.stints, st.totalLaps), SegmentColors(st.drivers, st.stints, st.totalLaps))
    else ([], [])
  }

  method Render(st: TyreState) returns (data: seq<ChartRow>, segmentColors: seq<seq<string>>)
    ensures (data, segmentColors) == Rendered(st)
  {
    if st.totalLaps > 0 {
      data, segmentColors := PrepareRechartData(st.drivers, st.stints, st.totalLaps);
    } else {
      data, segmentColors := [], [];
    }
  }

  /**
   * In a consistent state the chart has no rows exactly when no stint ends
   * after lap 0; otherwise it has one row per driver with a stint.
   */
  lemma NoRowsIffNoLaps(st: TyreState)
    requires Consistent(st)
    ensures Rendered(st).0 == [] <==> st.totalLaps == 0
    ensures st.totalLaps > 0 ==> |Rendered(st).0| == |st.drivers|
  {
    if st.totalLaps > 0 {
      var i :| 0 <= i < |st.stints| && st.stints[i].lapEnd == st.totalLaps;
      UniqueDriversExactlyOnce(st.stints, st.stints[i].driverNumber);
      assert st.stints[i].driverNumber in st.drivers;
      ChartShape(st.drivers, st.stints, st.totalLaps);
    }
  }

  /**
   * In a consistent state no stint runs past `totalLaps`, so a driver whose
   * first stint starts on lap 1 or later has a bar of exactly
   * `totalLaps - 1 - Gaps` laps.
   */
  lemma ConsistentBarTotal(st: TyreState, driver: int)
    requires Consistent(st)
    requires StintsFor(driver, st.stints) != [] && StintsFor(driver, st.stints)[0].lapStart >= 1
    ensures Total(DriverSegments(driver, st.stints, st.totalLaps))
      == st.totalLaps - 1 - Gaps(StintsFor(driver, st.stints))
  {
    var ss := StintsFor(driver, st.stints);
    var last := ss[|ss| - 1];
    StintsForCount(driver, st.stints, last);
    assert last in multiset(st.stints);
    var i :| 0 <= i < |st.stints| && st.stints[i] == last;
    BarTotal(ss, st.totalLaps);
  }
}
