/**
 * `simdsort6`: six signed bytes sorted in one SSE register by five passes.
 * The bytes sit in lanes 0..5 of a 16-byte register; lanes 6..15 hold zeros
 * and every pass leaves them where they are. Each pass gathers every lane's
 * partner next to it with `pshufb` by a constant table, compares partner
 * against lane, turns the byte mask plus a constant offset into an index,
 * and gathers with `pshufb` again. Decoded, the passes are the comparators
 * (0,1),(2,3),(4,5) | (0,2),(1,4),(3,5) | (0,1),(2,3),(4,5) | (1,2),(3,4) | (2,3).
 */
module SimdSort6 {
  import opened FixedWidth
  import opened Networks
  import opened Sse

  /** `pass1_shf` and `pass1_add` (also used by the third pass). */
  const Pass1Shf: Vec16 := [1, 0, 3, 2, 5, 4, 6, 7, 8, 9, 10, 11, 12, 13, 14, 15]
  const Pass1Add: Vec16 := [1, 1, 3, 3, 5, 5, 6, 7, 8, 9, 10, 11, 12, 13, 14, 15]

  /** `pass2_shf`, `pass2_and` and `pass2_add`. */
  const Pass2Shf: Vec16 := [2, 4, 0, 5, 1, 3, 6, 7, 8, 9, 10, 11, 12, 13, 14, 15]
  const Pass2And: Vec16 := [-2, -3, -2, -2, -3, -2, 0, 0, 0, 0, 0, 0, 0, 0, 0, 0]
  const Pass2Add: Vec16 := [2, 4, 2, 5, 4, 5, 6, 7, 8, 9, 10, 11, 12, 13, 14, 15]

  /** `pass4_shf` and `pass4_add`. */
  const Pass4Shf: Vec16 := [0, 2, 1, 4, 3, 5, 6, 7, 8, 9, 10, 11, 12, 13, 14, 15]
  const Pass4Add: Vec16 := [0, 2, 2, 4, 4, 5, 6, 7, 8, 9, 10, 11, 12, 13, 14, 15]

  /** `pass5_shf` and `pass5_add`. */
  const Pass5Shf: Vec16 := [0, 1, 3, 2, 4, 5, 6, 7, 8, 9, 10, 11, 12, 13, 14, 15]
  const Pass5Add: Vec16 := [0, 1, 3, 3, 4, 5, 6, 7, 8, 9, 10, 11, 12, 13, 14, 15]

  /** The comparators each pass realizes. */
  const Layer1: Network := [Comparator(0, 1), Comparator(2, 3), Comparator(4, 5)]
  const Layer2: Network := [Comparator(0, 2), Comparator(1, 4), Comparator(3, 5)]
  const Layer4: Network := [Comparator(1, 2), Comparator(3, 4)]
  const Layer5: Network := [Comparator(2, 3)]

  /** The size-12, depth-5 network the five passes make up; the third pass repeats the first. */
  const Network6: Network := Layer1 + Layer2 + Layer1 + Layer4 + Layer5

  /** The index register of the first and third passes. */
  function Pass1Index(a: Vec16): Vec16 {
    AddEpi8(CmpGtEpi8(ShuffleEpi8(a, Pass1Shf), a), Pass1Add)
  }

  /** The index register of the second pass. */
  function Pass2Index(a: Vec16): Vec16 {
    AddEpi8(AndSi128Bytes(CmpGtEpi8(ShuffleEpi8(a, Pass2Shf), a), Pass2And), Pass2Add)
  }

  /** The index register of the fourth pass. */
  function Pass4Index(a: Vec16): Vec16 {
    AddEpi8(CmpGtEpi8(ShuffleEpi8(a, Pass4Shf), a), Pass4Add)
  }

  /** The index register of the fifth pass. */
  function Pass5Index(a: Vec16): Vec16 {
    AddEpi8(CmpGtEpi8(ShuffleEpi8(a, Pass5Shf), a), Pass5Add)
  }

  /** Lanes 6..15 of an index register name themselves. */
  predicate KeepsUpperLanes(idx: Vec16) {
    forall k :: 6 <= k < 16 ==> idx[k] == k
  }

  /** Lanes 6..15 of a constant table are 6..15. */
  lemma UpperLanesOfTable(t: Vec16)
    requires t[6] == 6 && t[7] == 7 && t[8] == 8 && t[9] == 9 && t[10] == 10
    requires t[11] == 11 && t[12] == 12 && t[13] == 13 && t[14] == 14 && t[15] == 15
    ensures KeepsUpperLanes(t)
  {
    forall k | 6 <= k < 16 ensures t[k] == k {
      assert k == 6 || k == 7 || k == 8 || k == 9 || k == 10 || k == 11 || k == 12 || k == 13 || k == 14 || k == 15;
    }
  }

  /** Pass 1 pairs lanes 0,1 and 2,3 and 4,5: each low lane picks the smaller byte and
      each high lane the larger. */
  lemma Pass1Pairs(a: Vec16)
    ensures var idx := Pass1Index(a);
      && SelectsMin(a, 0, 1, idx[0]) && SelectsMax(a, 1, 0, idx[1])
      && SelectsMin(a, 2, 3, idx[2]) && SelectsMax(a, 3, 2, idx[3])
      && SelectsMin(a, 4, 5, idx[4]) && SelectsMax(a, 5, 4, idx[5])
  {
  }

  /** In pass 1, lanes 6..15 compare with themselves, the mask is 0 and they name themselves. */
  lemma Pass1KeepsUpper(a: Vec16)
    ensures KeepsUpperLanes(Pass1Index(a))
  {
    UpperLanesOfTable(Pass1Shf);
    UpperLanesOfTable(Pass1Add);
    var idx := Pass1Index(a);
    var b := ShuffleEpi8(a, Pass1Shf);
    forall k | 6 <= k < 16 ensures idx[k] == k {
      assert b[k] == a[k];
    }
  }

  /** The two lanes of a pair that pick as a compare-exchange does pick its minimum
      and its maximum. */
  lemma PairLanes(a: seq<int>, lo: nat, hi: nat, jl: int, jh: int)
    requires lo < hi < |a| && SelectsMin(a, lo, hi, jl) && SelectsMax(a, hi, lo, jh)
    ensures 0 <= jl < |a| && a[jl] == Min(a[lo], a[hi])
    ensures 0 <= jh < |a| && a[jh] == Max(a[lo], a[hi])
  {
  }

  /** A `pshufb` whose index bytes name lanes 0..5 for lanes 0..5, and lanes 6..15
      themselves, gathers any `t` that agrees with those lanes. */
  lemma GathersLanes(a: Vec16, idx: Vec16, t: seq<int>)
    requires |t| == 16 && KeepsUpperLanes(idx)
    requires forall k :: 6 <= k < 16 ==> t[k] == a[k]
    requires forall k :: 0 <= k < 6 ==> 0 <= idx[k] < 16 && t[k] == a[idx[k]]
    ensures ShuffleEpi8(a, idx) == t
  {
    var r := ShuffleEpi8(a, idx);
    forall k | 0 <= k < 16 ensures r[k] == t[k] {
      if k >= 6 {
        assert idx[k] == k;
      }
    }
  }

  /** An index register that selects the way pass 1 does gathers the layer (0,1),(2,3),(4,5). */
  lemma Layer1Gathers(a: Vec16, idx: Vec16)
    requires SelectsMin(a, 0, 1, idx[0]) && SelectsMax(a, 1, 0, idx[1])
    requires SelectsMin(a, 2, 3, idx[2]) && SelectsMax(a, 3, 2, idx[3])
    requires SelectsMin(a, 4, 5, idx[4]) && SelectsMax(a, 5, 4, idx[5])
    requires KeepsUpperLanes(idx)
    ensures WellFormed(Layer1, 16)
    ensures ShuffleEpi8(a, idx) == Apply(a, Layer1)
  {
    var t1 := CompareExchange(a, Layer1[0]);
    var t2 := CompareExchange(t1, Layer1[1]);
    var t3 := CompareExchange(t2, Layer1[2]);
    assert Apply(a, Layer1) == t3 by {
      assert Apply(t2, Layer1[2..]) == t3;
      assert Apply(t1, Layer1[1..]) == t3;
    }
    PairLanes(a, 0, 1, idx[0], idx[1]);
    PairLanes(a, 2, 3, idx[2], idx[3]);
    PairLanes(a, 4, 5, idx[4], idx[5]);
    GathersLanes(a, idx, t3);
  }

  /** Pass 1 (and pass 3) is the layer of compare-exchanges (0,1),(2,3),(4,5). */
  lemma Pass1Exchanges(a: Vec16)
    ensures WellFormed(Layer1, 16)
    ensures ShuffleEpi8(a, Pass1Index(a)) == Apply(a, Layer1)
  {
    Pass1Pairs(a);
    Pass1KeepsUpper(a);
    Layer1Gathers(a, Pass1Index(a));
  }

  /** Pass 2 pairs lanes 0,2 and 1,4 and 3,5. An all-ones mask ANDed with `pass2_and`
      becomes minus the distance to the partner, so the offset names the partner lane. */
  lemma Pass2Pairs(a: Vec16)
    ensures var idx := Pass2Index(a);
      && SelectsMin(a, 0, 2, idx[0]) && SelectsMin(a, 1, 4, idx[1])
      && SelectsMax(a, 2, 0, idx[2]) && SelectsMin(a, 3, 5, idx[3])
      && SelectsMax(a, 4, 1, idx[4]) && SelectsMax(a, 5, 3, idx[5])
  {
  }

  /** In pass 2, lanes 6..15 compare with themselves, the mask is 0 and they name themselves. */
  lemma Pass2KeepsUpper(a: Vec16)
    ensures KeepsUpperLanes(Pass2Index(a))
  {
    UpperLanesOfTable(Pass2Shf);
    UpperLanesOfTable(Pass2Add);
    var idx := Pass2Index(a);
    var b := ShuffleEpi8(a, Pass2Shf);
    forall k | 6 <= k < 16 ensures idx[k] == k {
      assert b[k] == a[k];
    }
  }

  /** An index register that selects the way pass 2 does gathers the layer (0,2),(1,4),(3,5). */
  lemma Layer2Gathers(a: Vec16, idx: Vec16)
    requires SelectsMin(a, 0, 2, idx[0]) && SelectsMin(a, 1, 4, idx[1])
    requires SelectsMax(a, 2, 0, idx[2]) && SelectsMin(a, 3, 5, idx[3])
    requires SelectsMax(a, 4, 1, idx[4]) && SelectsMax(a, 5, 3, idx[5])
    requires KeepsUpperLanes(idx)
    ensures WellFormed(Layer2, 16)
    ensures ShuffleEpi8(a, idx) == Apply(a, Layer2)
  {
    var t1 := CompareExchange(a, Layer2[0]);
    var t2 := CompareExchange(t1, Layer2[1]);
    var t3 := CompareExchange(t2, Layer2[2]);
    assert Apply(a, Layer2) == t3 by {
      assert Apply(t2, Layer2[2..]) == t3;
      assert Apply(t1, Layer2[1..]) == t3;
    }
    PairLanes(a, 0, 2, idx[0], idx[2]);
    PairLanes(a, 1, 4, idx[1], idx[4]);
    PairLanes(a, 3, 5, idx[3], idx[5]);
    GathersLanes(a, idx, t3);
  }

  /** Pass 2 is the layer of compare-exchanges (0,2),(1,4),(3,5). */
  lemma Pass2Exchanges(a: Vec16)
    ensures WellFormed(Layer2, 16)
    ensures ShuffleEpi8(a, Pass2Index(a)) == Apply(a, Layer2)
  {
    Pass2Pairs(a);
    Pass2KeepsUpper(a);
    Layer2Gathers(a, Pass2Index(a));
  }

  /** Pass 4 pairs lanes 1,2 and 3,4; lanes 0 and 5 compare with themselves. */
  lemma Pass4Pairs(a: Vec16)
    ensures var idx := Pass4Index(a);
      && idx[0] == 0 && SelectsMin(a, 1, 2, idx[1]) && SelectsMax(a, 2, 1, idx[2])
      && SelectsMin(a, 3, 4, idx[3]) && SelectsMax(a, 4, 3, idx[4]) && idx[5] == 5
  {
  }

  /** In pass 4, lanes 6..15 compare with themselves, the mask is 0 and they name themselves. */
  lemma Pass4KeepsUpper(a: Vec16)
    ensures KeepsUpperLanes(Pass4Index(a))
  {
    UpperLanesOfTable(Pass4Shf);
    UpperLanesOfTable(Pass4Add);
    var idx := Pass4Index(a);
    var b := ShuffleEpi8(a, Pass4Shf);
    forall k | 6 <= k < 16 ensures idx[k] == k {
      assert b[k] == a[k];
    }
  }

  /** An index register that selects the way pass 4 does gathers the layer (1,2),(3,4). */
  lemma Layer4Gathers(a: Vec16, idx: Vec16)
    requires idx[0] == 0 && SelectsMin(a, 1, 2, idx[1]) && SelectsMax(a, 2, 1, idx[2])
    requires SelectsMin(a, 3, 4, idx[3]) && SelectsMax(a, 4, 3, idx[4]) && idx[5] == 5
    requires KeepsUpperLanes(idx)
    ensures WellFormed(Layer4, 16)
    ensures ShuffleEpi8(a, idx) == Apply(a, Layer4)
  {
    var t1 := CompareExchange(a, Layer4[0]);
    var t2 := CompareExchange(t1, Layer4[1]);
    assert Apply(a, Layer4) == t2 by {
      assert Apply(t1, Layer4[1..]) == t2;
    }
    PairLanes(a, 1, 2, idx[1], idx[2]);
    PairLanes(a, 3, 4, idx[3], idx[4]);
    GathersLanes(a, idx, t2);
  }

  /** Pass 4 is the layer of compare-exchanges (1,2),(3,4). */
  lemma Pass4Exchanges(a: Vec16)
    ensures WellFormed(Layer4, 16)
    ensures ShuffleEpi8(a, Pass4Index(a)) == Apply(a, Layer4)
  {
    Pass4Pairs(a);
    Pass4KeepsUpper(a);
    Layer4Gathers(a, Pass4Index(a));
  }

  /** Pass 5 pairs lanes 2 and 3; every other lane compares with itself. */
  lemma Pass5Pairs(a: Vec16)
    ensures var idx := Pass5Index(a);
      && idx[0] == 0 && idx[1] == 1 && SelectsMin(a, 2, 3, idx[2])
      && SelectsMax(a, 3, 2, idx[3]) && idx[4] == 4 && idx[5] == 5
  {
  }

  /** In pass 5, lanes 6..15 compare with themselves, the mask is 0 and they name themselves. */
  lemma Pass5KeepsUpper(a: Vec16)
    ensures KeepsUpperLanes(Pass5Index(a))
  {
    UpperLanesOfTable(Pass5Shf);
    UpperLanesOfTable(Pass5Add);
    var idx := Pass5Index(a);
    var b := ShuffleEpi8(a, Pass5Shf);
    forall k | 6 <= k < 16 ensures idx[k] == k {
      assert b[k] == a[k];
    }
  }

  /** An index register that selects the way pass 5 does gathers the comparator (2,3). */
  lemma Layer5Gathers(a: Vec16, idx: Vec16)
    requires idx[0] == 0 && idx[1] == 1 && SelectsMin(a, 2, 3, idx[2])
    requires SelectsMax(a, 3, 2, idx[3]) && idx[4] == 4 && idx[5] == 5
    requires KeepsUpperLanes(idx)
    ensures WellFormed(Layer5, 16)
    ensures ShuffleEpi8(a, idx) == Apply(a, Layer5)
  {
    var t1 := CompareExchange(a, Layer5[0]);
    assert Apply(a, Layer5) == t1;
    PairLanes(a, 2, 3, idx[2], idx[3]);
    GathersLanes(a, idx, t1);
  }

  /** Pass 5 is the compare-exchange (2,3). */
  lemma Pass5Exchanges(a: Vec16)
    ensures WellFormed(Layer5, 16)
    ensures ShuffleEpi8(a, Pass5Index(a)) == Apply(a, Layer5)
  {
    Pass5Pairs(a);
    Pass5KeepsUpper(a);
    Layer5Gathers(a, Pass5Index(a));
  }

  /** After pass 1 each pair (0,1), (2,3), (4,5) is in order. */
  lemma Stage1Orders(s: seq<int>)
    requires |s| == 6
    ensures WellFormed(Layer1, 6)
    ensures var t := Apply(s, Layer1); t[0] <= t[1] && t[2] <= t[3] && t[4] <= t[5]
  {
    ApplyShort(s, Layer1);
  }

  /** What pass 2 leaves in order, given pass 1's order. Two of the facts compare a
      lane with the smaller or the larger of a pair. */
  lemma Stage2Orders(s: seq<int>)
    requires |s| == 6 && s[0] <= s[1] && s[2] <= s[3] && s[4] <= s[5]
    ensures WellFormed(Layer2, 6)
    ensures var t := Apply(s, Layer2);
      && t[0] <= t[2] && t[0] <= t[4] && t[0] <= t[5]
      && t[1] <= t[4] && t[1] <= t[5] && t[3] <= t[5]
      && Min(t[0], t[1]) <= t[3] && t[2] <= Max(t[4], t[5])
  {
    ApplyShort(s, Layer2);
  }

  /** What pass 3 (pass 1 again) leaves in order, given pass 2's order. */
  lemma Stage3Orders(s: seq<int>)
    requires |s| == 6
    requires s[0] <= s[2] && s[0] <= s[4] && s[0] <= s[5]
    requires s[1] <= s[4] && s[1] <= s[5] && s[3] <= s[5]
    requires Min(s[0], s[1]) <= s[3] && s[2] <= Max(s[4], s[5])
    ensures WellFormed(Layer1, 6)
    ensures var t := Apply(s, Layer1);
      && t[0] <= t[1] && t[0] <= t[2] && t[1] <= t[4]
      && t[2] <= t[3] && t[3] <= t[5] && t[4] <= t[5]
  {
    ApplyShort(s, Layer1);
  }

  /** What pass 4 leaves in order, given pass 3's order. */
  lemma Stage4Orders(s: seq<int>)
    requires |s| == 6
    requires s[0] <= s[1] && s[0] <= s[2] && s[1] <= s[4]
    requires s[2] <= s[3] && s[3] <= s[5] && s[4] <= s[5]
    ensures WellFormed(Layer4, 6)
    ensures var t := Apply(s, Layer4);
      && t[0] <= t[1] && t[1] <= t[2] && t[1] <= t[3]
      && t[2] <= t[4] && t[3] <= t[4] && t[4] <= t[5]
  {
    ApplyShort(s, Layer4);
  }

  /** Pass 5 finishes the order, given pass 4's order. */
  lemma Stage5Orders(s: seq<int>)
    requires |s| == 6
    requires s[0] <= s[1] && s[1] <= s[2] && s[1] <= s[3]
    requires s[2] <= s[4] && s[3] <= s[4] && s[4] <= s[5]
    ensures WellFormed(Layer5, 6)
    ensures Sorted(Apply(s, Layer5))
  {
    ApplyShort(s, Layer5);
    var t := Apply(s, Layer5);
    assert t == CompareExchange(s, Comparator(2, 3));
    SortedSix(t);
  }

  /** The network is its five layers run one after the other. */
  lemma {:induction false} Network6Layers(s: seq<int>)
    requires |s| >= 6
    ensures WellFormed(Layer1, 6) && WellFormed(Layer2, 6) && WellFormed(Layer4, 6) && WellFormed(Layer5, 6)
    ensures WellFormed(Network6, 6)
    ensures Apply(s, Network6)
         == Apply(Apply(Apply(Apply(Apply(s, Layer1), Layer2), Layer1), Layer4), Layer5)
  {
    assert WellFormed(Layer1, 6) && WellFormed(Layer2, 6);
    assert WellFormed(Layer4, 6) && WellFormed(Layer5, 6);
    WellFormedAppend(Layer1, Layer2, 6);
    WellFormedAppend(Layer1 + Layer2, Layer1, 6);
    WellFormedAppend(Layer1 + Layer2 + Layer1, Layer4, 6);
    WellFormedAppend(Layer1 + Layer2 + Layer1 + Layer4, Layer5, 6);
    assert WellFormed(Layer1, |s|) && WellFormed(Layer2, |s|);
    assert WellFormed(Layer4, |s|) && WellFormed(Layer5, |s|);
    ApplyAppend(s, Layer1, Layer2);
    ApplyAppend(s, Layer1 + Layer2, Layer1);
    ApplyAppend(s, Layer1 + Layer2 + Layer1, Layer4);
    ApplyAppend(s, Layer1 + Layer2 + Layer1 + Layer4, Layer5);
  }

  /** The five passes sort any six values, and only reorder them. */
  lemma Network6Sorts(s: seq<int>)
    requires |s| == 6
    ensures WellFormed(Network6, 6)
    ensures Sorted(Apply(s, Network6))
    ensures multiset(Apply(s, Network6)) == multiset(s)
  {
    Network6Layers(s);
    var t1 := Apply(s, Layer1);
    Stage1Orders(s);
    var t2 := Apply(t1, Layer2);
    Stage2Orders(t1);
    var t3 := Apply(t2, Layer1);
    Stage3Orders(t2);
    var t4 := Apply(t3, Layer4);
    Stage4Orders(t3);
    Stage5Orders(t4);
    ApplyPermutes(s, Network6);
  }

  /** Sorts `v[0..6]` in place as signed bytes. */
  method SimdSort6(v: array<Int8>)
    requires v.Length >= 6
    modifies v
    ensures v[..6] == Apply(old(v[..6]), Network6)
    ensures Sorted(v[..6]) && multiset(v[..6]) == multiset(old(v[..6]))
    ensures v[6..] == old(v[6..])
  {
    var a := CvtSi32Si128(v[..4]);
    a := InsertEpi16(a, v[4..6], 2);
    ghost var input := a;
    assert input[..6] == v[..6];
    Network6Layers(input);
    Network6Sorts(input[..6]);
    a := ApplyPass1(a);
    a := ApplyPass2(a);
    a := ApplyPass1(a);  // pass 3 repeats pass 1
    a := ApplyPass4(a);
    a := ApplyPass5(a);
    assert a == Apply(input, Network6);
    ApplyPrefix(input, Network6, 6);

    Store6(v, a);
  }

  /** Passes 1 and 3: the compare-exchanges (0,1),(2,3),(4,5). */
  method ApplyPass1(a: Vec16) returns (r: Vec16)
    ensures WellFormed(Layer1, 16)
    ensures r == Apply(a, Layer1)
  {
    var b := ShuffleEpi8(a, Pass1Shf);
    b := CmpGtEpi8(b, a);
    b := AddEpi8(b, Pass1Add);
    Pass1Exchanges(a);
    r := ShuffleEpi8(a, b);
  }

  /** Pass 2: the compare-exchanges (0,2),(1,4),(3,5). */
  method ApplyPass2(a: Vec16) returns (r: Vec16)
    ensures WellFormed(Layer2, 16)
    ensures r == Apply(a, Layer2)
  {
    var b := ShuffleEpi8(a, Pass2Shf);
    b := CmpGtEpi8(b, a);
    b := AndSi128Bytes(b, Pass2And);
    b := AddEpi8(b, Pass2Add);
    Pass2Exchanges(a);
    r := ShuffleEpi8(a, b);
  }

  /** Pass 4: the compare-exchanges (1,2),(3,4). */
  method ApplyPass4(a: Vec16) returns (r: Vec16)
    ensures WellFormed(Layer4, 16)
    ensures r == Apply(a, Layer4)
  {
    var b := ShuffleEpi8(a, Pass4Shf);
    b := CmpGtEpi8(b, a);
    b := AddEpi8(b, Pass4Add);
    Pass4Exchanges(a);
    r := ShuffleEpi8(a, b);
  }

  /** Pass 5: the compare-exchange (2,3). */
  method ApplyPass5(a: Vec16) returns (r: Vec16)
    ensures WellFormed(Layer5, 16)
    ensures r == Apply(a, Layer5)
  {
    var b := ShuffleEpi8(a, Pass5Shf);
    b := CmpGtEpi8(b, a);
    b := AddEpi8(b, Pass5Add);
    Pass5Exchanges(a);
    r := ShuffleEpi8(a, b);
  }

  /** The two stores that end `simdsort6`: `_mm_cvtsi128_si32(a)` to `v[0..4]` and
      `_mm_extract_epi16(a, 2)` to `v[4..6]`. Nothing else of `v` changes. */
  method Store6(v: array<Int8>, a: Vec16)
    requires v.Length >= 6
    modifies v
    ensures v[..6] == a[..6] && v[6..] == old(v[6..])
  {
    StoreInt(v, CvtSi128Si32(a));
    StoreInt16At4(v, ExtractEpi16(a, 2));
    assert v[..6] == v[..4] + v[4..6];
  }

  /** `*(int*)v = x`: writes the four bytes of `x` to `v[0..4]`. */
  method StoreInt(v: array<Int8>, x: seq<Int8>)
    requires v.Length >= 4 && |x| == 4
    modifies v
    ensures v[..4] == x && v[4..] == old(v[4..])
  {
    v[0], v[1], v[2], v[3] := x[0], x[1], x[2], x[3];
    assert v[..4] == [x[0], x[1], x[2], x[3]];
  }

  /** `*(int16_t*)(v + 4) = w`: writes the two bytes of `w` to `v[4..6]`. */
  method StoreInt16At4(v: array<Int8>, w: seq<Int8>)
    requires v.Length >= 6 && |w| == 2
    modifies v
    ensures v[..4] == old(v[..4]) && v[4..6] == w && v[6..] == old(v[6..])
  {
    v[4], v[5] := w[0], w[1];
    assert v[4..6] == [w[0], w[1]];
  }
}
