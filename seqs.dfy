/**
 * Facts about sequences and their multisets that the sorting proofs use for
 * driver numbers and for stints alike.
 */
module Seqs {

  /** Taking the first element off a sequence takes one copy of it off the multiset. */
  lemma HeadTailMultiset<T>(s: seq<T>)
    requires s != []
    ensures multiset(s) == multiset{s[0]} + multiset(s[1..])
    ensures multiset(s[1..]) == multiset(s) - multiset{s[0]}
  {
    assert s == [s[0]] + s[1..];
  }
}
