/**
 * `simdsort4`: four signed 32-bit values sorted in one SSE register by three
 * passes. Each pass shuffles every lane's partner next to it, compares
 * partner against lane, turns the compare mask plus a constant offset into a
 * lane selector, and gathers with `permutevar`. Decoded, the passes are the
 * comparators (0,1),(2,3) | (0,2),(1,3) | (1,2).
 */
module SimdSort4 {
  import opened FixedWidth
  import opened Networks
  import opened Sse

  /** `pass1_add4`, `pass2_add4`, `pass3_add4`. */
  const Pass1Add4: Vec4 := [1, 1, 3, 3]
  const Pass2Add4: Vec4 := [2, 3, 2, 3]
  const Pass3Add4: Vec4 := [0, 2, 2, 3]

  /** The comparators each pass realizes. */
  const Pass1: Network := [Comparator(0, 1), Comparator(2, 3)]
  const Pass2: Network := [Comparator(0, 2), Comparator(1, 3)]
  const Pass3: Network := [Comparator(1, 2)]

  /** The size-5, depth-3 network the three passes make up. */
  const Network4: Network := Pass1 + Pass2 + Pass3

  /** The selector `b` that pass 1 hands to `permutevar`. */
  function Pass1Selector(a: Vec4): Vec4 {
    AddEpi32(CmpGtEpi32(ShuffleEpi32(a, 177), a), Pass1Add4)
  }

  /** The selector `b` that pass 2 hands to `permutevar`. */
  function Pass2Selector(a: Vec4): Vec4 {
    AddEpi32(AndSi128(CmpGtEpi32(ShuffleEpi32(a, 78), a), Set1Epi8As32(-2)), Pass2Add4)
  }

  /** The selector `b` that pass 3 hands to `permutevar`. */
  function Pass3Selector(a: Vec4): Vec4 {
    AddEpi32(CmpGtEpi32(ShuffleEpi32(a, 216), a), Pass3Add4)
  }

  /** Pass 1 pairs lanes 0,1 and 2,3 (shuffle 177); the selector, taken mod 4, makes
      the low lane of each pair take the smaller value and the high lane the larger. */
  lemma Pass1Selects(a: Vec4)
    ensures var sel := Pass1Selector(a);
      && SelectsMin(a, 0, 1, sel[0] % 4) && SelectsMax(a, 1, 0, sel[1] % 4)
      && SelectsMin(a, 2, 3, sel[2] % 4) && SelectsMax(a, 3, 2, sel[3] % 4)
  {
    ShuffleImmediates(a);
  }

  /** Pass 2 pairs lanes 0,2 and 1,3 (shuffle 78). An all-ones mask ANDed with bytes of
      -2 acts as an offset of -2, so lanes 2 and 3 of `pass2_add4` turn into 0 and 1. */
  lemma Pass2Selects(a: Vec4)
    ensures var sel := Pass2Selector(a);
      && SelectsMin(a, 0, 2, sel[0] % 4) && SelectsMin(a, 1, 3, sel[1] % 4)
      && SelectsMax(a, 2, 0, sel[2] % 4) && SelectsMax(a, 3, 1, sel[3] % 4)
  {
    ShuffleImmediates(a);
    SetMinusTwo();
    MinusTwoOffset(2);
    MinusTwoOffset(3);
    var sel := Pass2Selector(a);
    if a[2] > a[0] { assert sel[0] == Wrap32(-16843010 + 2); } else { assert sel[0] == 2; }
    if a[3] > a[1] { assert sel[1] == Wrap32(-16843010 + 3); } else { assert sel[1] == 3; }
    if a[0] > a[2] { assert sel[2] == Wrap32(-16843010 + 2); } else { assert sel[2] == 2; }
    if a[1] > a[3] { assert sel[3] == Wrap32(-16843010 + 3); } else { assert sel[3] == 3; }
  }

  /** Pass 3 pairs lanes 1 and 2 (shuffle 216). Lanes 0 and 3 are compared with
      themselves, the compare is 0, and they select themselves. */
  lemma Pass3Selects(a: Vec4)
    ensures var sel := Pass3Selector(a);
      && sel[0] % 4 == 0 && SelectsMin(a, 1, 2, sel[1] % 4)
      && SelectsMax(a, 2, 1, sel[2] % 4) && sel[3] % 4 == 3
  {
    ShuffleImmediates(a);
  }

  /** Pass 1 is the compare-exchanges (0,1) and (2,3). */
  lemma Pass1Exchanges(a: Vec4)
    ensures PermuteVarPs(a, Pass1Selector(a)) == Apply(a, Pass1)
  {
    Pass1Selects(a);
    LanesEqual(PermuteVarPs(a, Pass1Selector(a)), Apply(a, Pass1));
  }

  /** Pass 2 is the compare-exchanges (0,2) and (1,3). */
  lemma Pass2Exchanges(a: Vec4)
    ensures PermuteVarPs(a, Pass2Selector(a)) == Apply(a, Pass2)
  {
    Pass2Selects(a);
    Pass2Gathers(a, Pass2Selector(a));
  }

  /** Any selector that picks lanes the way pass 2 does gathers the pass-2 result. */
  lemma Pass2Gathers(a: Vec4, sel: Vec4)
    requires SelectsMin(a, 0, 2, sel[0] % 4) && SelectsMin(a, 1, 3, sel[1] % 4)
    requires SelectsMax(a, 2, 0, sel[2] % 4) && SelectsMax(a, 3, 1, sel[3] % 4)
    ensures PermuteVarPs(a, sel) == Apply(a, Pass2)
  {
    LanesEqual(PermuteVarPs(a, sel), Apply(a, Pass2));
  }

  /** Pass 3 is the compare-exchange (1,2); lanes 0 and 3 stay where they are. */
  lemma Pass3Exchanges(a: Vec4)
    ensures PermuteVarPs(a, Pass3Selector(a)) == Apply(a, Pass3)
  {
    Pass3Selects(a);
    LanesEqual(PermuteVarPs(a, Pass3Selector(a)), Apply(a, Pass3));
  }

  /** Two four-lane vectors with equal lanes are equal. */
  lemma LanesEqual(x: seq<int>, y: seq<int>)
    requires |x| == 4 && |y| == 4
    requires x[0] == y[0] && x[1] == y[1] && x[2] == y[2] && x[3] == y[3]
    ensures x == y
  {
    assert x == [x[0], x[1], x[2], x[3]];
    assert y == [y[0], y[1], y[2], y[3]];
  }

  /** The three passes sort any four values, and only reorder them. */
  lemma {:induction false} Network4Sorts(s: seq<int>)
    requires |s| == 4
    ensures WellFormed(Pass1, 4) && WellFormed(Pass2, 4) && WellFormed(Pass3, 4)
    ensures WellFormed(Network4, 4)
    ensures Apply(Apply(Apply(s, Pass1), Pass2), Pass3) == Apply(s, Network4)
    ensures Sorted(Apply(s, Network4))
    ensures multiset(Apply(s, Network4)) == multiset(s)
  {
    ApplyAppend(s, Pass1, Pass2);
    ApplyAppend(s, Pass1 + Pass2, Pass3);
    var t := Apply(s, Network4);
    assert t[0] <= t[1] <= t[2] <= t[3];
    SortedFromAdjacent(t);
    ApplyPermutes(s, Network4);
  }

  /** Sorts `v[0..4]` in place as signed 32-bit values. */
  method SimdSort4(v: array<Int32>)
    requires v.Length >= 4
    modifies v
    ensures v[..4] == Apply(old(v[..4]), Network4)
    ensures Sorted(v[..4]) && multiset(v[..4]) == multiset(old(v[..4]))
    ensures v[4..] == old(v[4..])
  {
    var a: Vec4 := v[..4];  // _mm_loadu_si128
    ghost var input := a;
    Network4Sorts(input);
    var b: Vec4;

    b := ShuffleEpi32(a, 177);
    b := CmpGtEpi32(b, a);
    b := AddEpi32(b, Pass1Add4);
    Pass1Exchanges(a);
    a := PermuteVarPs(a, b);
    assert a == Apply(input, Pass1);

    b := ShuffleEpi32(a, 78);
    b := CmpGtEpi32(b, a);
    b := AndSi128(b, Set1Epi8As32(-2));
    b := AddEpi32(b, Pass2Add4);
    Pass2Exchanges(a);
    a := PermuteVarPs(a, b);
    assert a == Apply(Apply(input, Pass1), Pass2);

    b := ShuffleEpi32(a, 216);
    b := CmpGtEpi32(b, a);
    b := AddEpi32(b, Pass3Add4);
    Pass3Exchanges(a);
    a := PermuteVarPs(a, b);
    assert a == Apply(input, Network4);

    StoreU(v, a);
  }

  /** `_mm_storeu_si128`: writes the four lanes of `a` to `v[0..4]` and nothing else. */
  method StoreU(v: array<Int32>, a: Vec4)
    requires v.Length >= 4
    modifies v
    ensures v[..4] == a && v[4..] == old(v[4..])
  {
    v[0], v[1], v[2], v[3] := a[0], a[1], a[2], a[3];
    LanesEqual(v[..4], a);
  }
}
