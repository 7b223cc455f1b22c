/**
 * How the sorts relate to each other and to a reference sort: on six values
 * the scalar and the vector network give the same result, every network
 * returns the one sorted arrangement of its input, and none of them changes
 * an input that is already sorted.
 */
module Agreement {
  import opened Networks
  import opened SimdSort4
  import opened SimdSort6
  import opened ScalarSorts

  /** `sort6` and `simdsort6` compute the same function of six values. */
  lemma Sort6Agrees(s: seq<int>)
    requires |s| == 6
    ensures WellFormed(Sort6Network, 6) && WellFormed(Network6, 6)
    ensures Apply(s, Sort6Network) == Apply(s, Network6)
  {
    Sort6NetworkSorts(s);
    Network6Sorts(s);
    SortedPermutationUnique(Apply(s, Sort6Network), Apply(s, Network6));
  }

  /** The result of `simdsort4` is the sorted permutation of its input that a reference
      sort of the same four values produces. */
  lemma SimdSort4MatchesReference(s: seq<int>, reference: seq<int>)
    requires |s| == 4 && Sorted(reference) && multiset(reference) == multiset(s)
    ensures WellFormed(Network4, 4)
    ensures Apply(s, Network4) == reference
  {
    Network4Sorts(s);
    SortedPermutationUnique(Apply(s, Network4), reference);
  }

  /** The result of `simdsort6` is the sorted permutation of its input. */
  lemma SimdSort6MatchesReference(s: seq<int>, reference: seq<int>)
    requires |s| == 6 && Sorted(reference) && multiset(reference) == multiset(s)
    ensures WellFormed(Network6, 6)
    ensures Apply(s, Network6) == reference
  {
    Network6Sorts(s);
    SortedPermutationUnique(Apply(s, Network6), reference);
  }

  /** An input that is already sorted comes back unchanged from every sort. */
  lemma SortedInputsUnchanged(s4: seq<int>, s6: seq<int>)
    requires |s4| == 4 && Sorted(s4) && |s6| == 6 && Sorted(s6)
    ensures WellFormed(Network4, 4) && WellFormed(Network6, 6) && WellFormed(Sort6Network, 6)
    ensures Apply(s4, Network4) == s4
    ensures Apply(s6, Network6) == s6 && Apply(s6, Sort6Network) == s6
  {
    Network4Sorts(s4);
    Network6Sorts(s6);
    Sort6NetworkSorts(s6);
    ApplySortedUnchanged(s4, Network4);
    ApplySortedUnchanged(s6, Network6);
    ApplySortedUnchanged(s6, Sort6Network);
  }

  /** Sorting twice is sorting once. */
  lemma SortsIdempotent(s4: seq<int>, s6: seq<int>)
    requires |s4| == 4 && |s6| == 6
    ensures WellFormed(Network4, 4) && WellFormed(Network6, 6) && WellFormed(Sort6Network, 6)
    ensures Apply(Apply(s4, Network4), Network4) == Apply(s4, Network4)
    ensures Apply(Apply(s6, Network6), Network6) == Apply(s6, Network6)
    ensures Apply(Apply(s6, Sort6Network), Sort6Network) == Apply(s6, Sort6Network)
  {
    Network4Sorts(s4);
    Network6Sorts(s6);
    Sort6NetworkSorts(s6);
    ApplySortedUnchanged(Apply(s4, Network4), Network4);
    ApplySortedUnchanged(Apply(s6, Network6), Network6);
    ApplySortedUnchanged(Apply(s6, Sort6Network), Sort6Network);
  }

  /** Worked example: four values in reverse order. */
  lemma ExampleReversed4()
    ensures WellFormed(Network4, 4)
    ensures Apply([4, 3, 2, 1], Network4) == [1, 2, 3, 4]
  {
    ReversedPermuted();
    SortedFromAdjacent([1, 2, 3, 4]);
    SimdSort4MatchesReference([4, 3, 2, 1], [1, 2, 3, 4]);
  }

  /** Worked example: six values with a repeated one, through the SIMD network. */
  lemma ExampleRepeated6()
    ensures WellFormed(Network6, 6)
    ensures Apply([3, 1, 4, 1, 5, 9], Network6) == [1, 1, 3, 4, 5, 9]
  {
    RepeatedSorted();
    RepeatedPermuted();
    SimdSort6MatchesReference([3, 1, 4, 1, 5, 9], [1, 1, 3, 4, 5, 9]);
  }

  /** The same six values through the scalar network of `sort6`. */
  lemma ExampleRepeated6Scalar()
    ensures WellFormed(Sort6Network, 6)
    ensures Apply([3, 1, 4, 1, 5, 9], Sort6Network) == [1, 1, 3, 4, 5, 9]
  {
    ExampleRepeated6();
    Sort6Agrees([3, 1, 4, 1, 5, 9]);
  }

  lemma ReversedPermuted()
    ensures multiset([1, 2, 3, 4]) == multiset([4, 3, 2, 1])
  {
  }

  lemma RepeatedSorted()
    ensures Sorted([1, 1, 3, 4, 5, 9])
  {
    SortedFromAdjacent([1, 1, 3, 4, 5, 9]);
  }

  lemma RepeatedPermuted()
    ensures multiset([1, 1, 3, 4, 5, 9]) == multiset([3, 1, 4, 1, 5, 9])
  {
  }

  /** Worked example: `sort2` swaps two values out of order. */
  lemma ExampleSwapped2()
    ensures Apply([2, 1], [Comparator(0, 1)]) == [1, 2]
  {
    assert Apply([2, 1], [Comparator(0, 1)]) == Apply(CompareExchange([2, 1], Comparator(0, 1)), []);
  }
}
