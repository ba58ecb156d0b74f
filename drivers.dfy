/**
 * Driver numbers: the ascending numeric order in which the chart lists
 * drivers (a copy of the list sorted with a numeric comparator) and the row label
 * `#<number>` that a JavaScript template literal produces for an integer.
 */
module Drivers {
  import opened Seqs

  /** Non-decreasing numeric order. */
  predicate Ascending(xs: seq<int>) {
    forall i, j :: 0 <= i < j < |xs| ==> xs[i] <= xs[j]
  }

  /** Places `x` in front of the first element that is not smaller. */
  function InsertAscending(x: int, xs: seq<int>): (r: seq<int>)
    requires Ascending(xs)
    ensures Ascending(r)
    ensures |r| == |xs| + 1
    ensures r[0] == x || (xs != [] && r[0] == xs[0])
  {
    if xs == [] || x <= xs[0] then [x] + xs
    else [xs[0]] + InsertAscending(x, xs[1..])
  }

  /**
   * The numeric sort of the driver list: ascending, and (SortAscendingPermutes)
   * the same numbers with the same multiplicities; duplicates are kept, as the
   * source keeps them.
   */
  function SortAscending(xs: seq<int>): (r: seq<int>)
    ensures Ascending(r)
    ensures |r| == |xs|
  {
    if xs == [] then [] else InsertAscending(xs[0], SortAscending(xs[1..]))
  }

  lemma {:induction false} InsertAscendingPermutes(x: int, xs: seq<int>)
    requires Ascending(xs)
    ensures multiset(InsertAscending(x, xs)) == multiset(xs) + multiset{x}
  {
    if xs != [] && x > xs[0] {
      InsertAscendingPermutes(x, xs[1..]);
      HeadTailMultiset(xs);
    }
  }

  /** Sorting neither loses nor duplicates a driver number. */
  lemma {:induction false} SortAscendingPermutes(xs: seq<int>)
    ensures multiset(SortAscending(xs)) == multiset(xs)
  {
    if xs != [] {
      var rest := SortAscending(xs[1..]);
      SortAscendingPermutes(xs[1..]);
      InsertAscendingPermutes(xs[0], rest);
      HeadTailMultiset(xs);
    }
  }

  /**
   * An ascending arrangement of a multiset is unique, so any correct numeric
   * sort (whatever algorithm the JavaScript engine uses) yields SortAscending.
   */
  lemma {:induction false} AscendingPermutationUnique(a: seq<int>, b: seq<int>)
    requires Ascending(a) && Ascending(b)
    requires multiset(a) == multiset(b)
    ensures a == b
  {
    if a != [] {
      SameLeast(a, b);
      HeadTailMultiset(a);
      HeadTailMultiset(b);
      assert Ascending(a[1..]) && Ascending(b[1..]);
      AscendingPermutationUnique(a[1..], b[1..]);
      assert a == [a[0]] + a[1..] && b == [b[0]] + b[1..];
    } else {
      assert |b| == |multiset(b)| == 0;
    }
  }

  /** Two ascending arrangements of the same non-empty multiset start with the same number. */
  lemma SameLeast(a: seq<int>, b: seq<int>)
    requires Ascending(a) && Ascending(b)
    requires multiset(a) == multiset(b) && a != []
    ensures b != [] && a[0] == b[0]
  {
    assert a[0] in multiset(b);
    assert b != [] && b[0] in multiset(a);
    HeadIsLeast(a, b[0]);
    HeadIsLeast(b, a[0]);
  }

  /** The first element of an ascending list is its least element. */
  lemma HeadIsLeast(a: seq<int>, y: int)
    requires Ascending(a) && y in a
    ensures a[0] <= y
  {
  }

  /** Row order depends only on which numbers are present, not on their input order. */
  lemma SortIgnoresInputOrder(xs: seq<int>, ys: seq<int>)
    requires multiset(xs) == multiset(ys)
    ensures SortAscending(xs) == SortAscending(ys)
  {
    SortAscendingPermutes(xs);
    SortAscendingPermutes(ys);
    AscendingPermutationUnique(SortAscending(xs), SortAscending(ys));
  }

  /** Pairwise different numbers. */
  predicate Distinct(xs: seq<int>) {
    forall i, j :: 0 <= i < j < |xs| ==> xs[i] != xs[j]
  }

  /** A list without repeats holds each number at most once. */
  lemma {:induction false} DistinctAtMostOnce(xs: seq<int>, v: int)
    requires Distinct(xs)
    ensures multiset(xs)[v] <= 1
  {
    if xs != [] {
      assert xs == [xs[0]] + xs[1..];
      assert multiset(xs) == multiset{xs[0]} + multiset(xs[1..]);
      assert Distinct(xs[1..]);
      DistinctAtMostOnce(xs[1..], v);
      if v == xs[0] {
        assert v !in xs[1..];
      }
    }
  }

  /** Two equal entries at different positions mean the number occurs at least twice. */
  lemma RepeatedTwice(r: seq<int>, i: nat, j: nat)
    requires i < j < |r| && r[i] == r[j]
    ensures multiset(r)[r[i]] >= 2
  {
    assert r == r[..j] + [r[j]] + r[j+1..];
    assert r[i] in r[..j];
    assert multiset(r) == multiset(r[..j]) + multiset{r[j]} + multiset(r[j+1..]);
  }

  /** Sorting a list without repeats gives a strictly increasing list. */
  lemma SortDistinctStrictlyAscending(xs: seq<int>)
    requires Distinct(xs)
    ensures forall i, j :: 0 <= i < j < |SortAscending(xs)| ==> SortAscending(xs)[i] < SortAscending(xs)[j]
  {
    var r := SortAscending(xs);
    SortAscendingPermutes(xs);
    forall i, j | 0 <= i < j < |r| ensures r[i] < r[j] {
      if r[i] == r[j] {
        RepeatedTwice(r, i, j);
        DistinctAtMostOnce(xs, r[i]);
      }
    }
  }

  // ----- decimal rendering of integers (the `${driver}` in the row label) -----

  predicate IsDigit(c: char) { '0' <= c <= '9' }

  function DigitChar(d: nat): (c: char)
    requires d < 10
    ensures IsDigit(c) && c as int - '0' as int == d
  {
    ('0' as int + d) as char
  }

  /** Shortest decimal numeral of `n`: digits only, no leading zero. */
  function NatToDecimal(n: nat): (s: string)
    ensures |s| >= 1
    ensures forall i :: 0 <= i < |s| ==> IsDigit(s[i])
    ensures s[0] == '0' ==> n == 0
    decreases n
  {
    if n < 10 then [DigitChar(n)] else NatToDecimal(n / 10) + [DigitChar(n % 10)]
  }

  /** Value of a digit string, most significant digit first. */
  function DecimalValue(s: string): nat
    requires forall i :: 0 <= i < |s| ==> IsDigit(s[i])
  {
    if s == [] then 0
    else
      assert IsDigit(s[|s| - 1]);
      DecimalValue(s[..|s| - 1]) * 10 + (s[|s| - 1] as int - '0' as int)
  }

  /** Reading back the numeral gives the number. */
  lemma {:induction false} DecimalRoundTrip(n: nat)
    ensures DecimalValue(NatToDecimal(n)) == n
    decreases n
  {
    var s := NatToDecimal(n);
    if n >= 10 {
      DecimalRoundTrip(n / 10);
      assert s[..|s| - 1] == NatToDecimal(n / 10);
    }
  }

  /** How JavaScript renders an integer-valued number: optional minus sign, then digits. */
  function IntToDecimal(n: int): string {
    if n < 0 then "-" + NatToDecimal(-n) else NatToDecimal(n)
  }

  /** The row label `#${driver}`. */
  function Label(driver: int): string {
    "#" + IntToDecimal(driver)
  }

  /** Different numbers have different numerals. */
  lemma NatToDecimalInjective(m: nat, n: nat)
    requires NatToDecimal(m) == NatToDecimal(n)
    ensures m == n
  {
    DecimalRoundTrip(m);
    DecimalRoundTrip(n);
  }

  /** Different drivers never share a row label. */
  lemma LabelInjective(a: int, b: int)
    ensures Label(a) == Label(b) <==> a == b
  {
    if Label(a) == Label(b) {
      var sa, sb := IntToDecimal(a), IntToDecimal(b);
      assert sa == Label(a)[1..] && sb == Label(b)[1..];
      if a < 0 && b < 0 {
        assert NatToDecimal(-a) == sa[1..] && NatToDecimal(-b) == sb[1..];
        NatToDecimalInjective(-a, -b);
      } else if a >= 0 && b >= 0 {
        NatToDecimalInjective(a, b);
      }
    }
  }
}
