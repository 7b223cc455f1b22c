/**
 * Comparator networks: the data layer shared by the scalar and the vector
 * sorts. A network is a sequence of comparators applied in order; each
 * comparator leaves the smaller of its two values at its low position and the
 * larger at its high position and touches nothing else.
 */
module Networks {

  /** A comparator (lo, hi) of a sorting network. */
  datatype Comparator = Comparator(lo: nat, hi: nat)

  type Network = seq<Comparator>

  /** Ascending order. */
  predicate Sorted(s: seq<int>) {
    forall i, j :: 0 <= i < j < |s| ==> s[i] <= s[j]
  }

  /** The `min` macro of the scalar sort: `(a < b) ? a : b`. */
  function Min(a: int, b: int): (r: int)
    ensures r <= a && r <= b
    ensures r == a || r == b
  {
    if a < b then a else b
  }

  /** The `max` macro of the scalar sort: `(a < b) ? b : a`. */
  function Max(a: int, b: int): (r: int)
    ensures r >= a && r >= b
    ensures r == a || r == b
  {
    if a < b then b else a
  }

  /** Every comparator of `net` has lo < hi < n. */
  predicate WellFormed(net: Network, n: nat) {
    forall i :: 0 <= i < |net| ==> net[i].lo < net[i].hi < n
  }

  /** A vector lane k, compared with its partner lane p, takes its value from lane j:
      the lane holding the smaller of the two values. */
  predicate SelectsMin(a: seq<int>, k: nat, p: nat, j: int)
    requires k < |a| && p < |a|
  {
    j == if a[p] > a[k] then k else p
  }

  /** Lane k, compared with its partner lane p, takes its value from lane j: the lane
      holding the larger of the two values. */
  predicate SelectsMax(a: seq<int>, k: nat, p: nat, j: int)
    requires k < |a| && p < |a|
  {
    j == if a[p] > a[k] then p else k
  }

  /** Two networks that fit n positions still fit them run one after the other. */
  lemma WellFormedAppend(n1: Network, n2: Network, n: nat)
    requires WellFormed(n1, n) && WellFormed(n2, n)
    ensures WellFormed(n1 + n2, n)
  {
    forall i | 0 <= i < |n1 + n2| ensures (n1 + n2)[i].lo < (n1 + n2)[i].hi < n {
      if i < |n1| {
        assert (n1 + n2)[i] == n1[i];
      } else {
        assert (n1 + n2)[i] == n2[i - |n1|];
      }
    }
  }

  /** One compare-exchange step on `s`. */
  function CompareExchange(s: seq<int>, c: Comparator): (r: seq<int>)
    requires c.lo < |s| && c.hi < |s| && c.lo != c.hi
    ensures |r| == |s|
    ensures r[c.lo] <= r[c.hi]
    ensures r[c.lo] == Min(s[c.lo], s[c.hi]) && r[c.hi] == Max(s[c.lo], s[c.hi])
    ensures forall k :: 0 <= k < |s| && k != c.lo && k != c.hi ==> r[k] == s[k]
  {
    s[c.lo := Min(s[c.lo], s[c.hi])][c.hi := Max(s[c.lo], s[c.hi])]
  }

  /** Applies the comparators of `net` to `s`, first to last. */
  function Apply(s: seq<int>, net: Network): (r: seq<int>)
    requires WellFormed(net, |s|)
    ensures |r| == |s|
    decreases |net|
  {
    if net == [] then s else Apply(CompareExchange(s, net[0]), net[1..])
  }

  /** A network of one, two or three comparators, written out. */
  lemma ApplyShort(s: seq<int>, net: Network)
    requires 1 <= |net| <= 3 && WellFormed(net, |s|)
    ensures |net| == 1 ==> Apply(s, net) == CompareExchange(s, net[0])
    ensures |net| == 2 ==> Apply(s, net) == CompareExchange(CompareExchange(s, net[0]), net[1])
    ensures |net| == 3 ==>
      Apply(s, net) == CompareExchange(CompareExchange(CompareExchange(s, net[0]), net[1]), net[2])
  {
    var t := CompareExchange(s, net[0]);
    if |net| >= 2 {
      var u := CompareExchange(t, net[1]);
      assert net[1..][0] == net[1];
      if |net| == 3 {
        assert net[1..][1..] == net[2..];
        assert Apply(u, net[2..]) == CompareExchange(u, net[2]);
      }
    }
  }

  /** A compare-exchange only reorders: its output is a permutation of its input. */
  lemma CompareExchangePermutes(s: seq<int>, c: Comparator)
    requires c.lo < |s| && c.hi < |s| && c.lo != c.hi
    ensures multiset(CompareExchange(s, c)) == multiset(s)
  {
  }

  /** A network only reorders: its output is a permutation of its input. */
  lemma {:induction false} ApplyPermutes(s: seq<int>, net: Network)
    requires WellFormed(net, |s|)
    ensures multiset(Apply(s, net)) == multiset(s)
    decreases |net|
  {
    if net != [] {
      CompareExchangePermutes(s, net[0]);
      ApplyPermutes(CompareExchange(s, net[0]), net[1..]);
    }
  }

  /** Running two networks one after the other is running their concatenation. */
  lemma {:induction false} ApplyAppend(s: seq<int>, n1: Network, n2: Network)
    requires WellFormed(n1, |s|) && WellFormed(n2, |s|)
    ensures WellFormed(n1 + n2, |s|)
    ensures Apply(s, n1 + n2) == Apply(Apply(s, n1), n2)
    decreases |n1|
  {
    if n1 == [] {
      assert n1 + n2 == n2;
    } else {
      assert (n1 + n2)[1..] == n1[1..] + n2;
      ApplyAppend(CompareExchange(s, n1[0]), n1[1..], n2);
    }
  }

  /** A network that only touches positions below n works on the first n
      elements alone and leaves the rest where they were. */
  lemma {:induction false} ApplyPrefix(s: seq<int>, net: Network, n: nat)
    requires n <= |s| && WellFormed(net, n)
    ensures WellFormed(net, |s|)
    ensures Apply(s, net)[..n] == Apply(s[..n], net)
    ensures Apply(s, net)[n..] == s[n..]
    decreases |net|
  {
    if net != [] {
      var t := CompareExchange(s, net[0]);
      assert t[..n] == CompareExchange(s[..n], net[0]);
      assert t[n..] == s[n..];
      ApplyPrefix(t, net[1..], n);
    }
  }

  /** A network of standard comparators does not change an input that is
      already sorted. */
  lemma {:induction false} ApplySortedUnchanged(s: seq<int>, net: Network)
    requires Sorted(s) && WellFormed(net, |s|)
    ensures Apply(s, net) == s
    decreases |net|
  {
    if net != [] {
      var c := net[0];
      assert s[c.lo] <= s[c.hi];
      assert CompareExchange(s, c) == s;
      ApplySortedUnchanged(s, net[1..]);
    }
  }

  /** Adjacent pairs in order is enough for ascending order. */
  lemma {:induction false} SortedFromAdjacent(s: seq<int>)
    requires forall i :: 0 < i < |s| ==> s[i - 1] <= s[i]
    ensures Sorted(s)
    decreases |s|
  {
    if |s| > 1 {
      SortedFromAdjacent(s[1..]);
      assert forall j :: 1 <= j < |s| ==> s[0] <= s[j] by {
        forall j | 1 <= j < |s| ensures s[0] <= s[j] {
          assert s[1..][0] <= s[1..][j - 1];
        }
      }
    }
  }

  /** Six values in order pair by pair are in order. */
  lemma SortedSix(t: seq<int>)
    requires |t| == 6 && t[0] <= t[1] <= t[2] <= t[3] <= t[4] <= t[5]
    ensures Sorted(t)
  {
    SortedFromAdjacent(t);
  }

  /** There is exactly one ascending arrangement of a multiset of values. */
  lemma {:induction false} SortedPermutationUnique(a: seq<int>, b: seq<int>)
    requires Sorted(a) && Sorted(b) && multiset(a) == multiset(b)
    ensures a == b
    decreases |a|
  {
    assert |a| == |multiset(a)| == |multiset(b)| == |b|;
    if |a| > 0 {
      SortedHeadsEqual(a, b);
      DropHead(a);
      DropHead(b);
      SortedPermutationUnique(a[1..], b[1..]);
      assert a == [a[0]] + a[1..] && b == [b[0]] + b[1..];
    }
  }

  /** Two ascending sequences with the same values start with the same value. */
  lemma SortedHeadsEqual(a: seq<int>, b: seq<int>)
    requires Sorted(a) && Sorted(b) && multiset(a) == multiset(b) && |a| > 0 && |b| > 0
    ensures a[0] == b[0]
  {
    assert b[0] in multiset(a);
    assert a[0] in multiset(b);
    var i :| 0 <= i < |a| && a[i] == b[0];
    var j :| 0 <= j < |b| && b[j] == a[0];
    assert a[0] <= a[i] && b[0] <= b[j];
  }

  /** Dropping the first value of an ascending sequence leaves an ascending sequence
      holding one copy fewer of that value. */
  lemma DropHead(a: seq<int>)
    requires Sorted(a) && |a| > 0
    ensures Sorted(a[1..])
    ensures multiset(a[1..]) == multiset(a) - multiset{a[0]}
  {
    assert a == [a[0]] + a[1..];
    forall i, j | 0 <= i < j < |a| - 1 ensures a[1..][i] <= a[1..][j] {
      assert a[1..][i] == a[i + 1] && a[1..][j] == a[j + 1];
    }
  }
}
