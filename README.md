# Sorting networks for tiny arrays, modelled in Dafny

`sorts.cpp` sorts very small arrays without branches. It does this with
fixed sorting networks: sequences of compare-exchange steps whose order
never depends on the data. This project models its routines and proves
their properties:

- `sort2` sorts two `int` values with two conditional selects.
- `sort6` sorts six `int` values with twelve `SWAP` compare-exchanges.
- `simdsort4` sorts four `int` values in one SSE register. It makes three
  passes of shuffle, compare and `permutevar` gather.
- `simdsort6` sorts six signed bytes (`char`) in one SSE register. It makes
  five passes of `pshufb`, byte compare and `pshufb` gather.
- The `pshufb`-based variant of `simdsort4` (commented out in the source) is
  modelled too, at `ByteSort4`.

The model is layered:

- `FixedWidth`: `int32_t`/`int8_t` values, two's-complement wrap-around, and
  bitwise AND.
- `Sse`: each intrinsic is a pure function on the lanes of one 128-bit
  register. The register has two views: four 32-bit lanes (`Vec4`) and
  sixteen byte lanes (`Vec16`), related by a little-endian round trip.
- `Networks`: comparators, `CompareExchange`, and `Apply`, which folds a
  network over a sequence. It also proves the general facts: a network only
  permutes; networks compose by concatenation; a network leaves a sorted input
  unchanged; a network confined to a prefix leaves the rest alone; the sorted
  arrangement of a multiset is unique.
- `ScalarSorts`, `SimdSort4`, `ByteSort4`, `SimdSort6`: the routines are
  methods on arrays, in the order the source writes them.
  - Each intrinsic call is one assignment. `simdsort6` runs its five passes
    through one method per pass (the third pass reuses the first).
  - Each method ends with the array equal to a network applied to its old
    contents, sorted, a permutation of them, and with every element past the
    sorted prefix unchanged.
  - Each vector pass is proved equal to its layer of compare-exchanges.
  - The six-value networks are proved correct stage by stage; the
    four-value network directly.
- `Agreement`: relates the routines to each other and to a reference sort.
  - `sort6` and `simdsort6` give the same output on every input.
  - Each network's output is the unique sorted permutation of its input.
  - Each network leaves a sorted input unchanged and is idempotent.
  - Worked examples.

In `simdsort6`, lanes 6..15 of the register are zero after the load, because
`_mm_cvtsi32_si128` clears them. They are not undefined. Every pass is
proved to keep them in place: their index bytes name themselves.

## Model

| member | source | states |
|---|---|---|
| Networks.Min | sorts.cpp:129 | the `min` macro gives a value that is one of its operands and no larger than either |
| Networks.Max | sorts.cpp:130 | the `max` macro gives a value that is one of its operands and no smaller than either |
| Networks.CompareExchange | sorts.cpp:131 | one `SWAP(x, y)`: position x ends with the minimum, position y with the maximum, so the two are in order; every other position is unchanged |
| Networks.CompareExchangePermutes | sorts.cpp:131 | a `SWAP` only reorders: the multiset of values is unchanged |
| Networks.Apply | sorts.cpp:132-143 | running a sequence of `SWAP`s keeps the length |
| Networks.ApplyPermutes | sorts.cpp:132-143 | any network of `SWAP`s returns a permutation of its input |
| Networks.ApplyAppend | sorts.cpp:132-143 | running two networks one after the other is running their concatenation |
| Networks.WellFormedAppend | sorts.cpp:132-143 | two networks that fit n positions still fit them when concatenated |
| Networks.ApplyShort | sorts.cpp:132-143 | a network of one, two or three comparators is that many compare-exchanges in a row |
| Networks.ApplySortedUnchanged | sorts.cpp:132-143 | every network leaves an already sorted input unchanged |
| Networks.ApplyPrefix | sorts.cpp:214-238 | a network over lanes 0..5 acts on those lanes alone and leaves lanes 6..15 unchanged |
| Networks.SortedFromAdjacent | sorts.cpp:132-143 | adjacent pairs in order imply the whole sequence is ascending |
| Networks.SortedHeadsEqual | main.cpp:32-39 | two ascending sequences with the same multiset of values start with the same value |
| Networks.DropHead | main.cpp:32-39 | dropping the head of an ascending sequence keeps it ascending and removes one copy of that value |
| Networks.SortedPermutationUnique | main.cpp:32-39 | two ascending sequences with the same multiset are equal, so a sorted permutation is the reference sort's output |
| ScalarSorts.Sort2 | sorts.cpp:121-126 | `v[0]` ends with the smaller and `v[1]` with the larger of the old pair; the pair is sorted and a permutation; `v[2..]` is unchanged |
| ScalarSorts.Swap | sorts.cpp:131 | the `SWAP` macro on an array is one compare-exchange of the whole array's contents |
| ScalarSorts.Sort6 | sorts.cpp:128-147 | `d[0..6]` ends as the twelve `SWAP`s applied to its old contents, sorted and a permutation; `d[6..]` is unchanged |
| ScalarSorts.ThreeSwaps | sorts.cpp:132-143 | three compare-exchanges in a row are the network of those three |
| ScalarSorts.Sort6Layers | sorts.cpp:132-143 | the twelve `SWAP`s are the four groups of three run in order |
| ScalarSorts.SortLowOrders | sorts.cpp:132-134 | SWAPs 1-3 sort positions 0..2 and leave 3..5 alone |
| ScalarSorts.SortHighOrders | sorts.cpp:135-137 | SWAPs 4-6 sort positions 3..5 and leave 0..2 alone |
| ScalarSorts.Sort6HalvesSorted | sorts.cpp:132-137 | after the first six SWAPs each half is ascending |
| ScalarSorts.MergeFirstOrders | sorts.cpp:138-140 | given sorted halves, SWAPs 7-9 establish the orderings the last three need |
| ScalarSorts.Swap10Orders | sorts.cpp:141 | the orderings that hold after SWAP(2, 4) |
| ScalarSorts.Swap11Orders | sorts.cpp:142 | the orderings that hold after SWAP(1, 3) |
| ScalarSorts.Swap12Orders | sorts.cpp:143 | SWAP(2, 3) completes the ascending order |
| ScalarSorts.MergeLastSorts | sorts.cpp:141-143 | given what SWAPs 7-9 leave, SWAPs 10-12 sort all six |
| ScalarSorts.MergeSorts | sorts.cpp:138-143 | the last six SWAPs merge two ascending halves into one ascending sequence |
| ScalarSorts.Sort6NetworkSorts | sorts.cpp:132-143 | the twelve SWAPs sort any six values and return a permutation of them |
| Networks.SortedSix | sorts.cpp:132-143 | six values ascending pair by pair are sorted |
| FixedWidth.Wrap32 | sorts.cpp:184 | 32-bit two's-complement truncation: the result is a signed 32-bit value congruent to the input modulo 2^32, so it equals the input when that is in range |
| FixedWidth.Wrap8 | sorts.cpp:216 | 8-bit two's-complement truncation: the result is a signed byte congruent to the input modulo 2^8, so it equals the input when that is in range |
| FixedWidth.Unsigned32 | sorts.cpp:189 | the bit pattern of a 32-bit lane read unsigned is below 2^32 |
| FixedWidth.Unsigned8 | sorts.cpp:221 | the bit pattern of a byte lane read unsigned is below 2^8 |
| FixedWidth.AndBits | sorts.cpp:189 | the AND of two bit patterns is no larger than either and fits the width |
| FixedWidth.AndBitsAllOnes | sorts.cpp:189 | AND with all ones keeps the other operand |
| FixedWidth.AndBitsZero | sorts.cpp:221 | AND with zero clears every bit |
| FixedWidth.And32IsBitwise | sorts.cpp:189 | the 32-bit AND used for masks agrees with the bitwise AND of the two's-complement patterns for all operands |
| FixedWidth.And8IsBitwise | sorts.cpp:221 | the byte AND agrees with the bitwise AND of the two's-complement patterns for all operands |
| FixedWidth.And32 | sorts.cpp:189 | the per-lane AND of `_mm_and_si128` on 32-bit lanes; no contract of its own, its meaning is `And32IsBitwise` |
| FixedWidth.And8 | sorts.cpp:221 | the per-byte AND of `_mm_and_si128` on byte lanes; no contract of its own, its meaning is `And8IsBitwise` |
| Sse.ShuffleLane | sorts.cpp:182 | the two immediate bits for lane k name a lane 0..3 |
| Sse.ShuffleEpi32 | sorts.cpp:182 | `_mm_shuffle_epi32`: lane k of the result is the lane the immediate names for k |
| Sse.CmpGtEpi32 | sorts.cpp:183 | `_mm_cmpgt_epi32`: lane k is -1 exactly when a[k] > b[k] and 0 exactly when not |
| Sse.AddEpi32 | sorts.cpp:184 | `_mm_add_epi32`: each lane is the sum wrapped modulo 2^32 (congruent to the sum, in the signed range), so a sum in range is exact |
| Sse.AndSi128 | sorts.cpp:189 | `_mm_and_si128` with an all-ones lane keeps the other lane; with a zero lane it gives zero |
| Sse.Splat4 | sorts.cpp:189 | four copies of one byte: each of the four base-256 digits is that byte |
| Sse.Set1Epi8As32 | sorts.cpp:189 | `_mm_set1_epi8(x)` in the 32-bit view: every byte of every lane is x |
| Sse.PermuteVarPs | sorts.cpp:185 | `_mm_permutevar_ps`: lane k is the lane of `a` named by the low two bits of selector lane k |
| Sse.ShuffleEpi8 | sorts.cpp:214 | `_mm_shuffle_epi8`: a negative index byte gives 0; otherwise the byte named by its low four bits |
| Sse.CmpGtEpi8 | sorts.cpp:215 | `_mm_cmpgt_epi8`: byte k is -1 exactly when a[k] > b[k] and 0 exactly when not |
| Sse.AddEpi8 | sorts.cpp:216 | `_mm_add_epi8`: each byte is the sum wrapped modulo 2^8 (congruent to the sum, in the signed range), so a sum in range is exact |
| Sse.AndSi128Bytes | sorts.cpp:221 | `_mm_and_si128` in the byte view: an all-ones byte keeps the other byte; a zero byte gives zero |
| Sse.CvtSi32Si128 | sorts.cpp:211 | `_mm_cvtsi32_si128`: bytes 0..3 are the loaded bytes; bytes 4..15 are zero |
| Sse.InsertEpi16 | sorts.cpp:212 | `_mm_insert_epi16(a, x, 2)`: bytes 4 and 5 become the low two bytes of x; every other byte is unchanged |
| Sse.CvtSi128Si32 | sorts.cpp:240 | `_mm_cvtsi128_si32`: the four bytes of lanes 0..3 |
| Sse.ExtractEpi16 | sorts.cpp:241 | `_mm_extract_epi16(a, 2)`: bytes 4 and 5 |
| Sse.Set1Epi8 | sorts.cpp:157 | `_mm_set1_epi8(x)` in the byte view: every byte is x |
| Sse.BytesOf | sorts.cpp:159 | the byte view of a 32-bit-lane register: byte k is byte k mod 4 of lane k div 4 (little-endian) |
| Sse.LanesOf | sorts.cpp:159 | the 32-bit view of a byte register: lane k joins bytes 4k..4k+3, least significant first |
| Sse.LaneByte | sorts.cpp:159 | byte i of a 32-bit lane, least significant first; no contract of its own, its meaning is `JoinLaneBytes` and `LaneOfBytes` |
| Sse.Join4 | sorts.cpp:159 | the 32-bit lane formed from four bytes, least significant first; no contract of its own, its meaning is `JoinLaneBytes` |
| Sse.JoinLaneBytes | sorts.cpp:159 | joining the four bytes of a 32-bit value gives the value back |
| Sse.LaneOfBytes | sorts.cpp:159 | lane k of the 32-bit view of the byte view of a register is lane k |
| Sse.LanesOfBytesOf | sorts.cpp:159 | the two views of one register round-trip: 32-bit lanes to bytes and back changes nothing |
| Sse.MaskBytes | sorts.cpp:156-157 | every byte of an all-ones compare lane is all ones; every byte of a zero lane is zero |
| Sse.ShuffleImmediates | sorts.cpp:182-193 | immediate 177 swaps neighbours, 78 swaps halves, and 216 swaps the middle two lanes |
| Sse.SetMinusTwo | sorts.cpp:189 | `_mm_set1_epi8(-2)` read as 32-bit lanes is 0xFEFEFEFE in every lane |
| Sse.MinusTwoOffset | sorts.cpp:189-190 | for small c, adding 0xFEFEFEFE to c acts on the low two bits as c - 2 |
| SimdSort4.Pass1Selects | sorts.cpp:182-184 | each pass-1 selector lane names its own lane or its partner's: the smaller value for lanes 0 and 2, the larger for lanes 1 and 3 |
| SimdSort4.Pass2Selects | sorts.cpp:187-190 | each pass-2 selector lane names its own lane or its partner's: the smaller for lanes 0 and 1, the larger for lanes 2 and 3 |
| SimdSort4.Pass3Selects | sorts.cpp:193-195 | pass-3 selectors: lanes 0 and 3 name themselves; lane 1 takes the smaller and lane 2 the larger of lanes 1 and 2 |
| SimdSort4.Pass1Selector | sorts.cpp:182-184 | the selector `b` that pass 1 hands to `permutevar`; no contract of its own, its meaning is `Pass1Selects` |
| SimdSort4.Pass2Selector | sorts.cpp:187-190 | the selector `b` that pass 2 hands to `permutevar`; no contract of its own, its meaning is `Pass2Selects` |
| SimdSort4.Pass3Selector | sorts.cpp:193-195 | the selector `b` that pass 3 hands to `permutevar`; no contract of its own, its meaning is `Pass3Selects` |
| SimdSort4.Pass1Exchanges | sorts.cpp:182-185 | pass 1 equals the compare-exchanges (0,1),(2,3) |
| SimdSort4.Pass2Gathers | sorts.cpp:191 | any selector that picks lanes the way pass 2 does gathers the pass-2 result |
| SimdSort4.Pass2Exchanges | sorts.cpp:187-191 | pass 2 equals the compare-exchanges (0,2),(1,3) |
| SimdSort4.Pass3Exchanges | sorts.cpp:193-196 | pass 3 equals the compare-exchange (1,2) |
| SimdSort4.Network4Sorts | sorts.cpp:182-196 | the three passes in order are the five-comparator network, which sorts any four values and returns a permutation |
| SimdSort4.SimdSort4 | sorts.cpp:179-199 | `v[0..4]` ends as the network applied to its old contents, sorted and a permutation; `v[4..]` is unchanged |
| SimdSort4.StoreU | sorts.cpp:198 | `_mm_storeu_si128` writes the four lanes to `v[0..4]` and nothing else |
| ByteSort4.BasesPoint | sorts.cpp:149-151 | lane k of each `passN_add4s` table names the bytes of lane k or of its partner, before masking |
| ByteSort4.MaskedIndexBytes | sorts.cpp:156-158 | the index bytes are the base byte, plus the mask constant where the lane's partner compares greater |
| ByteSort4.MaskedLane | sorts.cpp:156-158 | such a lane's index bytes name the partner's bytes when the partner compares greater, and the base lane's otherwise |
| ByteSort4.SelfLane | sorts.cpp:167-170 | a lane compared with itself (lanes 0 and 3 of pass 3) keeps the base index bytes and points where the base points |
| ByteSort4.MaskedIndex | sorts.cpp:156-158 | the index bytes of one pass: the compare mask read as bytes, ANDed with a splatted constant, plus the base table; no contract of its own, its meaning is `MaskedIndexBytes` |
| ByteSort4.Pass1Index | sorts.cpp:155-158 | the index register of byte pass 1; no contract of its own, its meaning is `Pass1Points` |
| ByteSort4.Pass2Index | sorts.cpp:161-164 | the index register of byte pass 2; no contract of its own, its meaning is `Pass2Points` |
| ByteSort4.Pass3Index | sorts.cpp:167-170 | the index register of byte pass 3; no contract of its own, its meaning is `Pass3Points` |
| ByteSort4.Gather | sorts.cpp:159 | the `pshufb` gather of a pass on the byte view, read back as 32-bit lanes; no contract of its own, its meaning is `GatherLane` and `GatherLanes` |
| ByteSort4.ShuffledByte | sorts.cpp:159 | `pshufb` with an in-range index byte n takes source byte n |
| ByteSort4.GatherLane | sorts.cpp:159 | if a lane's four index bytes name lane j's bytes in order, the gathered lane is lane j |
| ByteSort4.GatherLanes | sorts.cpp:159 | if every lane's index bytes name some lane, the gather is that selection of lanes |
| ByteSort4.Pass1Points | sorts.cpp:155-158 | pass 1 index bytes point lanes 0 and 2 at the smaller, and lanes 1 and 3 at the larger, of each pair |
| ByteSort4.Pass1PointsFor | sorts.cpp:155-158 | the same pointing, for any index bytes laid out as a pass-1 masked index |
| ByteSort4.Pass2Points | sorts.cpp:161-164 | pass 2 index bytes point lanes 0 and 1 at the smaller, and lanes 2 and 3 at the larger, of each pair |
| ByteSort4.Pass2PointsFor | sorts.cpp:161-164 | the same pointing, for any index bytes laid out as a pass-2 masked index |
| ByteSort4.Pass3Points | sorts.cpp:167-170 | pass 3 index bytes: lanes 0 and 3 point at themselves; lane 1 at the smaller and lane 2 at the larger of lanes 1 and 2 |
| ByteSort4.Pass3PointsFor | sorts.cpp:167-170 | the same pointing, for any index bytes laid out as a pass-3 masked index |
| ByteSort4.BytePass1Gathers | sorts.cpp:159 | index bytes that point as pass 1's do gather the pass-1 result |
| ByteSort4.Pass1Picks | sorts.cpp:155-159 | lanes chosen as pass 1 chooses them are the compare-exchanges (0,1),(2,3) |
| ByteSort4.BytePass1Exchanges | sorts.cpp:155-159 | byte pass 1 equals the compare-exchanges (0,1),(2,3) |
| ByteSort4.BytePass2Gathers | sorts.cpp:165 | index bytes that point as pass 2's do gather the pass-2 result |
| ByteSort4.Pass2Picks | sorts.cpp:161-165 | lanes chosen as pass 2 chooses them are the compare-exchanges (0,2),(1,3) |
| ByteSort4.BytePass2Exchanges | sorts.cpp:161-165 | byte pass 2 equals the compare-exchanges (0,2),(1,3) |
| ByteSort4.BytePass3Gathers | sorts.cpp:171 | index bytes that point as pass 3's do gather the pass-3 result |
| ByteSort4.Pass3Picks | sorts.cpp:167-171 | lanes chosen as pass 3 chooses them are the compare-exchange (1,2) |
| ByteSort4.BytePass3Exchanges | sorts.cpp:167-171 | byte pass 3 equals the compare-exchange (1,2) |
| ByteSort4.PassesAgree | sorts.cpp:155-196 | each `pshufb` pass of the byte variant computes exactly what the matching `permutevar` pass computes |
| ByteSort4.ByteSimdSort4 | sorts.cpp:152-174 | `v[0..4]` ends as the four-value network applied to its old contents, sorted and a permutation; `v[4..]` is unchanged |
| SimdSort6.UpperLanesOfTable | sorts.cpp:201-209 | a table whose lanes 6..15 hold 6..15 names those lanes themselves |
| SimdSort6.Pass1Index | sorts.cpp:214-216 | the index register of passes 1 and 3 (also sorts.cpp:225-227); no contract of its own, its meaning is `Pass1Pairs` and `Pass1KeepsUpper` |
| SimdSort6.Pass2Index | sorts.cpp:219-222 | the index register of pass 2; no contract of its own, its meaning is `Pass2Pairs` and `Pass2KeepsUpper` |
| SimdSort6.Pass4Index | sorts.cpp:230-232 | the index register of pass 4; no contract of its own, its meaning is `Pass4Pairs` and `Pass4KeepsUpper` |
| SimdSort6.Pass5Index | sorts.cpp:235-237 | the index register of pass 5; no contract of its own, its meaning is `Pass5Pairs` and `Pass5KeepsUpper` |
| SimdSort6.Pass1Pairs | sorts.cpp:214-216 | pass-1 index bytes 0..5 name the lane itself or its partner: the smaller byte for lanes 0, 2, 4 and the larger for lanes 1, 3, 5 |
| SimdSort6.Pass1KeepsUpper | sorts.cpp:214-216 | pass-1 index bytes 6..15 equal their own lane number |
| SimdSort6.Layer1Gathers | sorts.cpp:217 | index bytes that select as pass 1's do gather the layer (0,1),(2,3),(4,5) |
| SimdSort6.Pass1Exchanges | sorts.cpp:214-217 | pass 1 (and pass 3) equals the compare-exchanges (0,1),(2,3),(4,5) |
| SimdSort6.Pass2Pairs | sorts.cpp:219-222 | pass-2 index bytes 0..5 name the lane itself or its partner: the smaller for lanes 0, 1, 3 and the larger for lanes 2, 4, 5 |
| SimdSort6.Pass2KeepsUpper | sorts.cpp:219-222 | pass-2 index bytes 6..15 equal their own lane number |
| SimdSort6.Layer2Gathers | sorts.cpp:223 | index bytes that select as pass 2's do gather the layer (0,2),(1,4),(3,5) |
| SimdSort6.Pass2Exchanges | sorts.cpp:219-223 | pass 2 equals the compare-exchanges (0,2),(1,4),(3,5) |
| SimdSort6.Pass4Pairs | sorts.cpp:230-232 | pass-4 index bytes: lanes 0 and 5 name themselves; lanes 1 to 4 pick the smaller or larger of pairs (1,2),(3,4) |
| SimdSort6.Pass4KeepsUpper | sorts.cpp:230-232 | pass-4 index bytes 6..15 equal their own lane number |
| SimdSort6.Layer4Gathers | sorts.cpp:233 | index bytes that select as pass 4's do gather the layer (1,2),(3,4) |
| SimdSort6.Pass4Exchanges | sorts.cpp:230-233 | pass 4 equals the compare-exchanges (1,2),(3,4) |
| SimdSort6.Pass5Pairs | sorts.cpp:235-237 | pass-5 index bytes: lanes 2 and 3 pick the smaller and larger of the pair; lanes 0, 1, 4, 5 name themselves |
| SimdSort6.Pass5KeepsUpper | sorts.cpp:235-237 | pass-5 index bytes 6..15 equal their own lane number |
| SimdSort6.Layer5Gathers | sorts.cpp:238 | index bytes that select as pass 5's do gather the comparator (2,3) |
| SimdSort6.Pass5Exchanges | sorts.cpp:235-238 | pass 5 equals the compare-exchange (2,3) |
| SimdSort6.PairLanes | sorts.cpp:217 | lanes that pick as a compare-exchange does take the pair's minimum and maximum |
| SimdSort6.GathersLanes | sorts.cpp:217 | a `pshufb` whose index bytes name lanes 0..5 for lanes 0..5, and lanes 6..15 themselves, yields exactly the named lanes |
| SimdSort6.ApplyPass1 | sorts.cpp:214-217 | the four statements of pass 1 (and of pass 3, sorts.cpp:225-228) turn the register into the layer (0,1),(2,3),(4,5) applied to it |
| SimdSort6.ApplyPass2 | sorts.cpp:219-223 | the five statements of pass 2 turn the register into the layer (0,2),(1,4),(3,5) applied to it |
| SimdSort6.ApplyPass4 | sorts.cpp:230-233 | the four statements of pass 4 turn the register into the layer (1,2),(3,4) applied to it |
| SimdSort6.ApplyPass5 | sorts.cpp:235-238 | the four statements of pass 5 turn the register into the comparator (2,3) applied to it |
| SimdSort6.Stage1Orders | sorts.cpp:214-217 | after pass 1, each pair (0,1),(2,3),(4,5) is in order |
| SimdSort6.Stage2Orders | sorts.cpp:219-223 | the orderings that pass 2 establishes, given pass 1's |
| SimdSort6.Stage3Orders | sorts.cpp:225-228 | the orderings that pass 3 establishes, given pass 2's |
| SimdSort6.Stage4Orders | sorts.cpp:230-233 | the orderings that pass 4 establishes, given pass 3's |
| SimdSort6.Stage5Orders | sorts.cpp:235-238 | pass 5 completes the ascending order, given pass 4's orderings |
| SimdSort6.Network6Layers | sorts.cpp:214-238 | the five passes in order are the twelve-comparator network |
| SimdSort6.Network6Sorts | sorts.cpp:214-238 | the network sorts any six values and returns a permutation of them |
| SimdSort6.SimdSort6 | sorts.cpp:210-242 | `v[0..6]` ends as the network applied to its old bytes, sorted and a permutation; `v[6..]` is unchanged, so only six bytes are written |
| SimdSort6.Store6 | sorts.cpp:240-241 | the two closing stores write bytes 0..5 of the register to `v[0..6]` and nothing else |
| SimdSort6.StoreInt | sorts.cpp:240 | the 32-bit store writes `v[0..4]` only |
| SimdSort6.StoreInt16At4 | sorts.cpp:241 | the 16-bit store writes `v[4..6]` only |
| Agreement.Sort6Agrees | sorts.cpp:128-242 | `sort6` and `simdsort6` use different networks but give the same result on every six values |
| Agreement.SimdSort4MatchesReference | sorts.cpp:179-199 | the four-value network's output is the sorted permutation of its input, whatever reference sort computes it |
| Agreement.SimdSort6MatchesReference | sorts.cpp:210-242 | the six-value network's output is the sorted permutation of its input, whatever reference sort computes it |
| Agreement.SortedInputsUnchanged | sorts.cpp:128-242 | all three networks leave an already sorted input unchanged |
| Agreement.SortsIdempotent | sorts.cpp:128-242 | sorting a second time changes nothing, for all three networks |
| Agreement.ExampleReversed4 | sorts.cpp:179-199 | [4, 3, 2, 1] sorts to [1, 2, 3, 4] |
| Agreement.ExampleRepeated6 | sorts.cpp:210-242 | [3, 1, 4, 1, 5, 9] sorts to [1, 1, 3, 4, 5, 9] |
| Agreement.ExampleRepeated6Scalar | sorts.cpp:128-147 | `sort6` sorts [3, 1, 4, 1, 5, 9] to [1, 1, 3, 4, 5, 9] |
| Agreement.ExampleSwapped2 | sorts.cpp:121-126 | `sort2`'s compare-exchange sorts [2, 1] to [1, 2] |

## Left out

- `main.cpp` (timing harness, random inputs, comparison against `std::sort`): benchmarking and I/O. Its permutation check is represented only by `SortedPermutationUnique` and the `MatchesReference` lemmas.
- The assembly (MASM) routines that `main.cpp` declares (`sort2a` to `sort6a`, `simdsort4a` and its variants): their source is not part of this model. `main.cpp` runs its permutation check on `simdsort4a`, not on the C++ `simdsort4`.
- Performance: no branches, latency, and the choice of `permutevar` over `pshufb`. These are properties of the machine, not of the values computed.
- The float casts (`_mm_castsi128_ps`, `_mm_castps_si128`) around `permutevar`: they reinterpret bits and change no value. `PermuteVarPs` works on the integer lanes directly.
- The unaligned loads and stores are modelled by their effect on array elements. Memory layout and alignment are not modelled.
- SimdSort6: the second load in `simdsort6` reads four bytes at `v + 4`, so it reads `v[6..8)`, past the six bytes being sorted. Only the low 16 bits (`v[4..6]`) reach the register, so the model reads only `v[4..6]` and requires only `v.Length >= 6`. That the real load needs two more readable bytes is not captured.
- `AndSi128` and `AndSi128Bytes` are written per lane in each register view, not as a single 128-bit AND. `And32IsBitwise` and `And8IsBitwise` prove that the per-lane shortcuts equal the bitwise AND.
- `char` is taken to be signed (`int8_t`), as `_mm_cmpgt_epi8` compares it. An unsigned `char` platform would order bytes 128..255 differently.
- `ByteSort4.ByteSimdSort4` models the `pshufb` variant of `simdsort4`, which is commented out in the source. The variant is modelled, not shipped code.
