/**
 * The scalar sorts: `sort2` orders two 32-bit values with two selects, and
 * `sort6` orders six with the twelve compare-exchanges of its `SWAP` macro.
 * The first six SWAPs sort the halves 0..2 and 3..5 (three comparators
 * each); the last six merge the two sorted halves.
 */
module ScalarSorts {
  import opened FixedWidth
  import opened Networks

  /** SWAPs 1 to 3 sort positions 0..2; SWAPs 4 to 6 sort positions 3..5. */
  const SortLow: Network := [Comparator(1, 2), Comparator(0, 2), Comparator(0, 1)]
  const SortHigh: Network := [Comparator(4, 5), Comparator(3, 5), Comparator(3, 4)]

  /** SWAPs 7 to 12 merge the two sorted halves. */
  const MergeFirst: Network := [Comparator(0, 3), Comparator(1, 4), Comparator(2, 5)]
  const MergeLast: Network := [Comparator(2, 4), Comparator(1, 3), Comparator(2, 3)]

  const SortHalves: Network := SortLow + SortHigh
  const MergeHalves: Network := MergeFirst + MergeLast

  /** The twelve SWAPs of `sort6`, in order. */
  const Sort6Network: Network := SortHalves + MergeHalves

  /** `sort2`: `v[0]` gets the smaller and `v[1]` the larger of the two values. */
  method Sort2(v: array<Int32>)
    requires v.Length >= 2
    modifies v
    ensures v[0] == Min(old(v[0]), old(v[1])) && v[1] == Max(old(v[0]), old(v[1]))
    ensures v[..2] == Apply(old(v[..2]), [Comparator(0, 1)])
    ensures Sorted(v[..2]) && multiset(v[..2]) == multiset(old(v[..2]))
    ensures v[2..] == old(v[2..])
  {
    var a := v[0];
    var b := v[1];
    v[0] := if b > a then a else b;
    v[1] := if b > a then b else a;
    ghost var s := old(v[..2]);
    assert s == [a, b];
    assert v[..2] == [v[0], v[1]];
    assert Apply(s, [Comparator(0, 1)]) == CompareExchange(s, Comparator(0, 1));
  }

  /** The `SWAP(x, y)` macro: `d[x]` gets the smaller and `d[y]` the larger of the two
      values, and nothing else of `d` changes. */
  method Swap(d: array<Int32>, x: nat, y: nat)
    requires x < d.Length && y < d.Length && x != y
    modifies d
    ensures d[..] == CompareExchange(old(d[..]), Comparator(x, y))
  {
    var a: Int32 := Min(d[x], d[y]);
    var b: Int32 := Max(d[x], d[y]);
    d[x] := a;
    d[y] := b;
  }

  /** `sort6`: the twelve SWAPs, in the source's order. */
  method Sort6(d: array<Int32>)
    requires d.Length >= 6
    modifies d
    ensures d[..6] == Apply(old(d[..6]), Sort6Network)
    ensures Sorted(d[..6]) && multiset(d[..6]) == multiset(old(d[..6]))
    ensures d[6..] == old(d[6..])
  {
    ghost var s0 := d[..];
    Sort6NetworkSorts(s0[..6]);
    Swap(d, 1, 2);
    ghost var s1 := d[..];
    Swap(d, 0, 2);
    ghost var s2 := d[..];
    Swap(d, 0, 1);
    ghost var s3 := d[..];
    ThreeSwaps(s0, s1, s2, s3, Comparator(1, 2), Comparator(0, 2), Comparator(0, 1));
    Swap(d, 4, 5);
    ghost var s4 := d[..];
    Swap(d, 3, 5);
    ghost var s5 := d[..];
    Swap(d, 3, 4);
    ghost var s6 := d[..];
    ThreeSwaps(s3, s4, s5, s6, Comparator(4, 5), Comparator(3, 5), Comparator(3, 4));
    Swap(d, 0, 3);
    ghost var s7 := d[..];
    Swap(d, 1, 4);
    ghost var s8 := d[..];
    Swap(d, 2, 5);
    ghost var s9 := d[..];
    ThreeSwaps(s6, s7, s8, s9, Comparator(0, 3), Comparator(1, 4), Comparator(2, 5));
    Swap(d, 2, 4);
    ghost var s10 := d[..];
    Swap(d, 1, 3);
    ghost var s11 := d[..];
    Swap(d, 2, 3);
    ThreeSwaps(s9, s10, s11, d[..], Comparator(2, 4), Comparator(1, 3), Comparator(2, 3));
    Sort6Layers(s0);
    ApplyPrefix(s0, Sort6Network, 6);
    assert s0[..6] == old(d[..6]) && s0[6..] == old(d[6..]);
  }

  /** Three compare-exchanges in a row are the network of those three. */
  lemma ThreeSwaps(s0: seq<int>, s1: seq<int>, s2: seq<int>, s3: seq<int>,
                   c0: Comparator, c1: Comparator, c2: Comparator)
    requires c0.lo < c0.hi < |s0| && c1.lo < c1.hi < |s0| && c2.lo < c2.hi < |s0|
    requires s1 == CompareExchange(s0, c0) && s2 == CompareExchange(s1, c1)
    requires s3 == CompareExchange(s2, c2)
    ensures WellFormed([c0, c1, c2], |s0|)
    ensures s3 == Apply(s0, [c0, c1, c2])
  {
    var net := [c0, c1, c2];
    assert WellFormed(net, |s0|) by {
      forall i | 0 <= i < 3 ensures net[i].lo < net[i].hi < |s0| {
        assert i == 0 || i == 1 || i == 2;
      }
    }
    assert net[1..] == [c1, c2] && net[2..] == [c2];
    assert Apply(s2, net[2..]) == s3;
    assert Apply(s1, net[1..]) == s3;
  }

  /** The twelve SWAPs are the four groups of three run one after the other. */
  lemma {:induction false} Sort6Layers(s: seq<int>)
    requires |s| >= 6
    ensures WellFormed(SortLow, 6) && WellFormed(SortHigh, 6)
    ensures WellFormed(MergeFirst, 6) && WellFormed(MergeLast, 6)
    ensures WellFormed(Sort6Network, 6)
    ensures Apply(s, Sort6Network)
         == Apply(Apply(Apply(Apply(s, SortLow), SortHigh), MergeFirst), MergeLast)
  {
    assert WellFormed(SortLow, 6) && WellFormed(SortHigh, 6);
    assert WellFormed(MergeFirst, 6) && WellFormed(MergeLast, 6);
    WellFormedAppend(SortLow, SortHigh, 6);
    WellFormedAppend(MergeFirst, MergeLast, 6);
    WellFormedAppend(SortHalves, MergeHalves, 6);
    assert WellFormed(SortLow, |s|) && WellFormed(SortHigh, |s|);
    assert WellFormed(MergeFirst, |s|) && WellFormed(MergeLast, |s|);
    ApplyAppend(s, SortLow, SortHigh);
    ApplyAppend(s, MergeFirst, MergeLast);
    ApplyAppend(s, SortHalves, MergeHalves);
    ApplyAppend(Apply(s, SortHalves), MergeFirst, MergeLast);
  }

  /** SWAPs 1 to 3 put positions 0..2 in order and leave 3..5 alone. */
  lemma SortLowOrders(s: seq<int>)
    requires |s| == 6
    ensures WellFormed(SortLow, 6)
    ensures var t := Apply(s, SortLow); t[0] <= t[1] <= t[2] && t[3..] == s[3..]
  {
    ApplyShort(s, SortLow);
  }

  /** SWAPs 4 to 6 put positions 3..5 in order and leave 0..2 alone. */
  lemma SortHighOrders(s: seq<int>)
    requires |s| == 6
    ensures WellFormed(SortHigh, 6)
    ensures var t := Apply(s, SortHigh); t[3] <= t[4] <= t[5] && t[..3] == s[..3]
  {
    ApplyShort(s, SortHigh);
  }

  /** After the first six SWAPs, positions 0..2 are in order and so are positions 3..5. */
  lemma Sort6HalvesSorted(s: seq<int>)
    requires |s| == 6
    ensures WellFormed(SortHalves, 6)
    ensures var t := Apply(s, SortHalves); t[0] <= t[1] <= t[2] && t[3] <= t[4] <= t[5]
  {
    SortLowOrders(s);
    var u := Apply(s, SortLow);
    SortHighOrders(u);
    assert u[..3][0] <= u[..3][1] <= u[..3][2];
    ApplyAppend(s, SortLow, SortHigh);
  }

  /** What SWAPs 7 to 9 leave in order, given two sorted halves. */
  lemma MergeFirstOrders(s: seq<int>)
    requires |s| == 6 && s[0] <= s[1] <= s[2] && s[3] <= s[4] <= s[5]
    ensures WellFormed(MergeFirst, 6)
    ensures var t := Apply(s, MergeFirst);
      && t[0] <= t[1] && t[0] <= t[3] && t[1] <= t[2] && t[1] <= t[4]
      && t[2] <= t[5] && t[3] <= t[4] && t[4] <= t[5]
  {
    ApplyShort(s, MergeFirst);
  }

  /** SWAPs 10 to 12 finish the order, given what SWAPs 7 to 9 left. */
  lemma MergeLastSorts(s: seq<int>)
    requires |s| == 6
    requires s[0] <= s[1] && s[0] <= s[3] && s[1] <= s[2] && s[1] <= s[4]
    requires s[2] <= s[5] && s[3] <= s[4] && s[4] <= s[5]
    ensures WellFormed(MergeLast, 6)
    ensures Sorted(Apply(s, MergeLast))
  {
    var t1 := CompareExchange(s, Comparator(2, 4));
    Swap10Orders(s);
    var t2 := CompareExchange(t1, Comparator(1, 3));
    Swap11Orders(t1);
    var t3 := CompareExchange(t2, Comparator(2, 3));
    Swap12Orders(t2);
    SortedSix(t3);
    ThreeSwaps(s, t1, t2, t3, Comparator(2, 4), Comparator(1, 3), Comparator(2, 3));
  }

  /** SWAP(2, 4), given what SWAPs 7 to 9 left in order. */
  lemma Swap10Orders(s: seq<int>)
    requires |s| == 6
    requires s[0] <= s[1] && s[0] <= s[3] && s[1] <= s[2] && s[1] <= s[4]
    requires s[2] <= s[5] && s[3] <= s[4] && s[4] <= s[5]
    ensures var t := CompareExchange(s, Comparator(2, 4));
      && t[0] <= t[1] && t[0] <= t[3] && t[1] <= t[2]
      && t[2] <= t[4] && t[3] <= t[4] && t[4] <= t[5]
  {
  }

  /** SWAP(1, 3), given what SWAP(2, 4) left in order. */
  lemma Swap11Orders(s: seq<int>)
    requires |s| == 6
    requires s[0] <= s[1] && s[0] <= s[3] && s[1] <= s[2]
    requires s[2] <= s[4] && s[3] <= s[4] && s[4] <= s[5]
    ensures var t := CompareExchange(s, Comparator(1, 3));
      && t[0] <= t[1] && t[1] <= t[2] && t[1] <= t[3]
      && t[2] <= t[4] && t[3] <= t[4] && t[4] <= t[5]
  {
  }

  /** SWAP(2, 3), given what SWAP(1, 3) left in order, puts all six in order. */
  lemma Swap12Orders(s: seq<int>)
    requires |s| == 6
    requires s[0] <= s[1] && s[1] <= s[2] && s[1] <= s[3]
    requires s[2] <= s[4] && s[3] <= s[4] && s[4] <= s[5]
    ensures var t := CompareExchange(s, Comparator(2, 3));
      t[0] <= t[1] <= t[2] <= t[3] <= t[4] <= t[5]
  {
  }

  /** The last six SWAPs merge two sorted halves into one sorted sequence. */
  lemma MergeSorts(s: seq<int>)
    requires |s| == 6 && s[0] <= s[1] <= s[2] && s[3] <= s[4] <= s[5]
    ensures WellFormed(MergeHalves, 6)
    ensures Sorted(Apply(s, MergeHalves))
  {
    MergeFirstOrders(s);
    MergeLastSorts(Apply(s, MergeFirst));
    ApplyAppend(s, MergeFirst, MergeLast);
  }

  /** The twelve SWAPs sort any six values, and only reorder them. */
  lemma Sort6NetworkSorts(s: seq<int>)
    requires |s| == 6
    ensures WellFormed(Sort6Network, 6)
    ensures Sorted(Apply(s, Sort6Network))
    ensures multiset(Apply(s, Sort6Network)) == multiset(s)
  {
    Sort6HalvesSorted(s);
    MergeSorts(Apply(s, SortHalves));
    ApplyAppend(s, SortHalves, MergeHalves);
    ApplyPermutes(s, Sort6Network);
  }
}
