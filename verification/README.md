# Verified model of the vector class library's permute planner and of two field routines

The bundled vector class library turns a list of indexes into vector instructions at compile
time. An index list says where every element of the result comes from: `k` is element `k` of the
source, `-1` is zero, and `V_DC` is "any value". `perm_flags` and `blend_flags` make one pass over
the list and pack a plan into a 64-bit word; the `permute` and `blend` functions choose
instructions from that plan; `blend_half` builds vectors that the instruction set does not have
from blends of half the size. It is a small compiler, and the main results here say that it
preserves meaning: for every list, every vector and every instruction set level, the chosen
instructions give what the list asks for.

The specification is the predicate `Vectors.Meets`: element `i` of the result is element `idx[i]`
of the source where `idx[i] >= 0`, zero where it is `-1`, and unconstrained where it is `V_DC`. The
source of a blend is the first vector followed by the second. An element is a string of bytes, so
that byte shifts, byte shuffles, OR and AND mean what they do in the processor. The instruction set
level (`INSTRSET`) is a parameter, and so is `zextMissing`, the compiler work-around that replaces
the zero-extending casts. A failed `static_assert` is the result `None`.

How the files follow the program:

- `IndexLists`, `BitNumbers`, `Vectors`, `Intrinsics`, `RegisterBytes`: index lists, numbers as bits,
  vectors, and one small function for each instruction.
- `PermScan`, `PermPlanning`, `PlanWords`: `perm_flags`. The flags, which the code removes one by one
  during its pass, are shown to be equivalent to properties of the whole list (for example
  `FitsCompress`: the sources increase, at least as fast as their places).
- `BlendScan`, `BlendPlanning`: the same for `blend_flags` (its word is in `PlanWords` too).
- `LargeBlocks`, `Masks`, `ByteShuffles`, `BlendSplits`, `BitScans`: the functions that turn a list
  into a list for larger blocks, a bit mask, a byte shuffle mask or a pair of lists.
- `PermuteFits`, `BlendFits`: why each instruction fits when its flag is set.
- `Permute128`, `Blend128`, `Permute256`, `Blend256`: the functions that choose instructions.
- `HalfIndexes`, `HalfRejections`, `HalfBlends`: emulation by half the size, at any number of
  doublings, and exactly which lists it rejects.
- `Gathers`, `Reductions`, `Powers`: gathering at fixed indexes, horizontal minimum and maximum,
  integer powers.
- `Grids`, `FieldSmoothing`, `VectorPotential`: `smoothField2d` and `calc_Az` of `pplotutil.py`, over
  exact real numbers.

## Where the code and its documentation differ

- The emulated blends do not reject every list that is out of range, although the functions that
  they stand in for stop the compilation. Above the supported size an index that is too large is
  read as `-1`. A negative index other than `-1` and `V_DC` is rejected if and only if, for the
  half of the list that holds it and for every narrower piece around it down to the supported
  size, at most two sources are used (`HalfRejections.HalfRejected`, with a rejected and an
  accepted list in `HalfRejections.OneRejectedOneAccepted`).
- A gather whose largest index is less than the number of elements, other than one with
  smallest index 0 and largest index N-1, reads beyond its largest index (`Gathers.Gather`, and
  `Gathers.GatherOfFirst` at all indexes 0); the comment in the code about not reading past the end applies to the other case.
- With several lanes, the flag for zeroing after a shift forgets a `-1` that only a lane other than
  the first asks for (`PermPlanning.ZeroForgotten`). No function uses the shifts there.
- `pow_n` for the smallest integer does not compile, although it has a result for it: the branch for
  negative exponents is instantiated all the same (`Powers.PowN`).
- `smoothField2d` changes a constant field if a dimension that is not periodic has only one element
  (`FieldSmoothing.ConstantsFixed`).
- The top row that `calc_Az` extrapolates does not fit Bx unless Bx is constant along that row
  (`VectorPotential.TopRowFits`), even if the field has no divergence (`VectorPotential.TopRowMisses`
  is such a field). The sign of Az in the code is
  the opposite of that in its comment; the model follows the code.

## Model

| member | source | states |
|---|---|---|
| PermScan.CompressFound | deps/vectorclass/instrset.h:703-710 | the compress flag survives the pass exactly for the lists whose sources increase at least as fast as their places; without the extra-zeroing flag no -1 lies before the last element asked for |
| PermScan.ExpandFound | deps/vectorclass/instrset.h:711-718 | the expand flag survives exactly for the lists whose sources increase at most as fast as their places |
| PermScan.ExpandGapFound | deps/vectorclass/instrset.h:711-718 | the mark that expansion may need extra zeroing is set exactly if some source below a used one is skipped |
| PermScan.BlocksMeaning | deps/vectorclass/instrset.h:667-676 | the large-block flag survives exactly if all pairs are aligned pairs; the zeroing flag is set exactly if a pair is half zero and half not |
| PermScan.BroadcastFound | deps/vectorclass/instrset.h:661-666 | the broadcast candidate is the one source that all elements ask for, or a value that says there is none or more than one |
| PermScan.PatternFound | deps/vectorclass/instrset.h:677-697 | for lists that stay in their lanes, the same-pattern flag survives exactly if no two lanes want different elements in the same column |
| PermScan.PatternIsShared | deps/vectorclass/instrset.h:677-697 | then the recorded lane pattern gives the column of every source, in every lane |
| PermPlanning.FitRotation | deps/vectorclass/instrset.h:749-764 | the rotate count is that of every element of the pattern, or two elements disagree |
| PermPlanning.FitBigRotation | deps/vectorclass/instrset.h:823-839 | a count below N is reported exactly if one rotation across all lanes moves every element, and it is that rotation |
| PermPlanning.PackedFieldsDecode | deps/vectorclass/instrset.h:809-820 | the packed pattern has eight bits, and its two-bit fields are the sources (or both halves of a 64-bit source) |
| PermPlanning.PackedNumber | deps/vectorclass/instrset.h:809-820 | the packed pattern as a number, for four and for two elements to a lane |
| PermPlanning.RotatedBroadcastShifts | deps/vectorclass/instrset.h:771-790 | a rotated list that asks for one source only also fits a shift |
| PermPlanning.CountIsFree | deps/vectorclass/instrset.h:843-845 | whenever a broadcast index is put into the count field, the field is still empty |
| PermPlanning.PermFlags | deps/vectorclass/instrset.h:628-847 | for a list in range, every flag, count and pattern of the plan holds of the list: which instructions fit, which -1 still need zeroing, in any number of lanes; a list that moves nothing gets nothing else, and numbers without use are 0; the numbers fit their fields; a list out of range is reported exactly |
| PermPlanning.ZeroForgotten | deps/vectorclass/instrset.h:771-790 | for one list of two lanes, every plan that meets the contract shifts right without extra zeroing, and a -1 of the second lane is left unzeroed |
| PlanWords.WordDecodes | deps/vectorclass/instrset.h:605-626 | the flags, the count and the pattern can be read back from the word |
| PlanWords.LowPlaces | deps/vectorclass/instrset.h:607-614 | each of the flags at bits 0 to 7 is at the bit that its constant names |
| PlanWords.HighPlaces | deps/vectorclass/instrset.h:615-624 | likewise from bit 8 on, and the bits without a flag are clear |
| PlanWords.NumberPlaces | deps/vectorclass/instrset.h:625-626 | the count is at bit 32 and the pattern at bit 40 |
| PlanWords.WordsDiffer | deps/vectorclass/instrset.h:605-626 | different plans have different words |
| PlanWords.BlendWordDecodes | deps/vectorclass/instrset.h:1048-1073 | the flags and both patterns of a blend plan can be read back from the word |
| PlanWords.BlendLowPlaces | deps/vectorclass/instrset.h:1051-1058 | each of the flags at bits 0 to 7 is at the bit that its constant names |
| PlanWords.BlendHighPlaces | deps/vectorclass/instrset.h:1059-1070 | likewise from bit 8 on, and the bits without a flag are clear |
| PlanWords.BlendNumberPlaces | deps/vectorclass/instrset.h:1071-1073 | the shuffle pattern is at bit 32 and the rotation at bit 40 |
| PlanWords.BlendWordsDiffer | deps/vectorclass/instrset.h:1048-1073 | different blend plans have different words |
| Masks.ZeroMask | deps/vectorclass/instrset.h:507-519 | bit i is set exactly if element i is asked for |
| Masks.ZeroMaskBroad | deps/vectorclass/instrset.h:524-534 | the same mask with all bits of the element |
| Masks.ZeroUnused | deps/vectorclass/vectorf256.h:2594-2603 | from a result that only lacks zeroing, the final masking step reaches the whole specification |
| Masks.MakeBitMask | deps/vectorclass/instrset.h:546-571 | for an index that is not negative, the selected bit of the index, inverted unless the option bit 8 (lower half) or 9 (upper half) is set; for a negative one, option bit 10 |
| Masks.CompressMask | deps/vectorclass/instrset.h:853-870 | for a list that fits compression, the bit of each source is set and has rank i among the set bits, where i is its destination, and no bits follow the last one |
| Masks.CompressSound | deps/vectorclass/instrset.h:732-739 | with such a mask the compress instruction routes every element, and zeroes every -1 unless one lies before the last element asked for |
| Masks.ExpandMask | deps/vectorclass/instrset.h:875-892 | for a list that fits expansion, each destination bit is set and has as its rank the source; dummy bits occur only if a source is skipped, before the last element asked for |
| Masks.ExpandSound | deps/vectorclass/instrset.h:740-747 | with such a mask the expand instruction routes every element, and zeroes every -1 unless a source is skipped and a -1 lies before the last element asked for |
| LargeBlocks.LargeBlockPerm | deps/vectorclass/instrset.h:1010-1046 | returns the reference list of blocks, for every list of even length |
| LargeBlocks.LargeBlockIndexes | deps/vectorclass/instrset.h:1291-1325 | returns the same reference list, in one pass with a correction |
| LargeBlocks.BlockListIs | deps/vectorclass/instrset.h:1010-1046 | each index of that list: the pair asked for, -1 to zero both, V_DC if neither matters or zeroing is left for later |
| LargeBlocks.LargeBlockSound | deps/vectorclass/instrset.h:726-731 | moving the larger blocks routes every element of the original list, and meets the whole specification unless a pair is half zero |
| LargeBlocks.BlockListInRange | deps/vectorclass/instrset.h:1010-1046 | the block list is in range if the original list is |
| ByteShuffles.PshufbMask | deps/vectorclass/instrset.h:966-1003 | the byte mask is, lane by lane, the chunks of bytes of the sources that lie in the same (or the opposite) lane |
| ByteShuffles.MaskByte | deps/vectorclass/instrset.h:974-1002 | each byte of the mask: its place in the lane if the source is in this (or the opposite) lane, otherwise -1, for any number of lanes |
| ByteShuffles.OneLaneShuffle | deps/vectorclass/instrset.h:966-1003 | in one lane, the byte shuffle permutes whole elements and zeroes all negative ones, for every element size |
| ByteShuffles.TwoLaneShuffle | deps/vectorclass/instrset.h:966-1003 | in two lanes, it does so with the sources that the mask is for |
| ByteShuffles.FullByteShuffle | deps/vectorclass/instrset.h:961-1003 | the shuffle, the shuffle of the exchanged lanes and OR give the full permute with all negative indexes zeroed |
| BitScans.BitScanReverse | deps/vectorclass/instrset.h:396-408 | the number of the highest bit, -1 for 0, for all 64-bit numbers |
| Permute128.ShiftLeftFits | deps/vectorclass/instrset.h:777-782 | a left shift by N - rot elements does the permute when the first columns are not asked for, and leaves zeros there |
| Permute128.ShiftRightFits | deps/vectorclass/instrset.h:783-790 | a right shift by rot elements, likewise |
| Permute128.ShiftedLeft | deps/vectorclass/vectorf128.h:2541-2544 | pslldq by (16 - count) & 15 bytes, the count taken from the plan word |
| Permute128.ShiftedRight | deps/vectorclass/vectorf128.h:2545-2548 | psrldq by count & 15 bytes |
| Permute128.Permute2d | deps/vectorclass/vectorf128.h:2456-2504 | the permute of Vec2d meets the specification for every list in range, on every branch and level; all other lists are rejected |
| Permute128.Permute4f | deps/vectorclass/vectorf128.h:2508-2574 | the permute of Vec4f, likewise |
| PermuteFits.LaneSplitPsFits | deps/vectorclass/vectorf256.h:2584-2589 | permuting the vector and its exchanged lanes separately and merging under the bits of mask 0x102 routes every element |
| PermuteFits.ZextFits | deps/vectorclass/instrset.h:699-702 | zero extension routes every element of a list that fits, and zeroes between them |
| Permute256.Permute4d | deps/vectorclass/vectorf256.h:2417-2502 | the permute of Vec4d meets the specification for every list in range, on every branch and level from 7 on; all other lists are rejected |
| Permute256.Permute8f | deps/vectorclass/vectorf256.h:2505-2605 | the permute of Vec8f, likewise |
| BlendScan.PatternFound | deps/vectorclass/instrset.h:1124-1151 | for lists that stay in their lanes, the same-pattern flag survives exactly if the lanes agree on column and source vector |
| BlendScan.ShufFound | deps/vectorclass/instrset.h:1134-1138 | the shufpd flags survive exactly if sources alternate between the vectors within aligned pairs |
| BlendPlanning.FitTurn | deps/vectorclass/instrset.h:1170-1194 | the count for palignr is that of all elements on the circle of both lanes, or two elements disagree |
| BlendPlanning.BlendFlags | deps/vectorclass/instrset.h:1074-1246 | every flag, count and pattern of the plan holds of the list, with and without moves; numbers without use are 0 and all fit their fields; an illegal index is reported exactly, and then nothing else is |
| BlendFits.TurnFits | deps/vectorclass/instrset.h:1170-1194 | palignr is exact in any number of lanes, with the order of operands and the count that the plan gives |
| BlendFits.AlignrOneLane | deps/vectorclass/vectorf128.h:2704-2710 | in one lane it is the shift of both registers together |
| BlendFits.BigTurnFits | deps/vectorclass/instrset.h:1222-1239 | rotation across all lanes of both vectors, modulo 2N |
| BlendFits.SourceBit8 | deps/vectorclass/vectorf256.h:2706-2713 | the mask 0x303 selects b exactly for the elements of b |
| BlendSplits.BlendPermIndexes | deps/vectorclass/instrset.h:1253-1284 | each index goes to the list of its own source vector, where it names the same element; in the other list it is V_DC or -1, and negative indexes are replaced or kept, as the option says |
| BlendSplits.OrIsBlend | deps/vectorclass/instrset.h:1253-1284 | with unused elements zeroed, OR of the two permutations is the blend, at every length |
| BlendSplits.CollectsSource | deps/vectorclass/instrset.h:546-571 | for N = 2^k, bit k of each index is its source vector |
| BlendSplits.MergeIsBlend | deps/vectorclass/instrset.h:1253-1284 | with unused elements open, merging under that mask routes every element of the blend |
| Blend128.Blend2d | deps/vectorclass/vectorf128.h:2583-2656 | the blend of Vec2d meets the specification for every list in range, on every branch and level; all other lists are rejected |
| Blend128.Blend4f | deps/vectorclass/vectorf128.h:2660-2748 | the blend of Vec4f, likewise |
| Blend256.Blend4d | deps/vectorclass/vectorf256.h:2608-2679 | the blend of Vec4d, likewise from level 7 on |
| Blend256.Blend8f | deps/vectorclass/vectorf256.h:2682-2755 | the blend of Vec8f, likewise, with the larger blocks done by the blend of Vec4d |
| HalfIndexes.BlendHalfIndexes | deps/vectorclass/instrset.h:1350-1374 | the list for two of the four half-size sources |
| HalfBlends.PassResult | deps/vectorclass/instrset.h:1350-1374 | a blend by that list gives every element of the two sources and zero for those of the others |
| HalfIndexes.ListSources | deps/vectorclass/instrset.h:1404-1421 | the sources used, in order and without repetition, padded with 0 |
| HalfIndexes.FewSources | deps/vectorclass/instrset.h:1454-1461 | two indexes use at most two sources, so that the branch for N = 2 of the second pass is never taken |
| HalfBlends.OnePass | deps/vectorclass/instrset.h:1430-1453 | one blend is enough for one or two sources |
| HalfBlends.TwoPasses | deps/vectorclass/instrset.h:1454-1479 | for three or four sources, OR of two blends gives every element; with three, the padding selects the first source twice and OR does not change it |
| HalfBlends.BlendHalf | deps/vectorclass/instrset.h:1392-1481 | half of the blend, at any number of doublings; rejected if and only if the list has an illegal negative index with at most two sources counted for the half and for every narrower piece around it |
| HalfBlends.EmulatedBlend | deps/vectorclass/vectorf512e.h:1679-1692 | at every number of doublings, rejected exactly as that condition says for one of the halves (at the supported size: exactly if out of range); accepted lists are met, with everything illegal read as -1 |
| HalfBlends.SanitizedMeans | deps/vectorclass/vectorf512e.h:1679-1692 | what an accepted list gets, element by element: the element, any value for V_DC, zero for everything else |
| HalfBlends.WideBlend | deps/vectorclass/vectorf256e.h:1772-1785 | two half blends make the whole blend, rejected exactly if one half is |
| HalfBlends.EmulatedPermute | deps/vectorclass/vectorf256e.h:1756-1768 | two blends of the low and the high half make the whole permute, rejected exactly if one of the two is |
| HalfRejections.RejectedStep | deps/vectorclass/instrset.h:1429-1453 | the condition on pieces of the list holds if and only if at most two sources are counted and the blend of these rejects the list made for them |
| HalfRejections.InRangeAccepted | deps/vectorclass/vectorf256e.h:1756-1768 | no permute list in range is rejected, at any number of doublings |
| HalfRejections.PermuteOneUp | deps/vectorclass/vectorf256e.h:1756-1768 | one doubling above the supported size, a permute rejects exactly the lists out of range |
| HalfRejections.OneRejectedOneAccepted | deps/vectorclass/instrset.h:1422-1479 | two lists with the same illegal index, one rejected and one accepted |
| HalfRejections.TooLargeIsCounted | deps/vectorclass/instrset.h:1404-1410 | an index that is too large counts as a source modulo four |
| HalfRejections.CountsBlocks | deps/vectorclass/instrset.h:1402-1421 | the sources counted for a list are the blocks that it uses |
| Gathers.MinIndex | deps/vectorclass/vectori128.h:5851-5858 | the smallest index |
| Gathers.MaxIndex | deps/vectorclass/vectori128.h:5860-5867 | the largest index |
| Gathers.Lookup | deps/vectorclass/vectori256e.h:3372-3383 | limiting the index keeps every read inside the table for all indexes, and changes none that is inside |
| Gathers.LimitedIs | deps/vectorclass/vectori256e.h:3372-3381 | what limiting does to every 32-bit index: modulo n for a power of two, otherwise the last place for all that are not in the table |
| Gathers.MaskedIndex | deps/vectorclass/vectori256e.h:3374-3377 | for a power of two the mask n - 1 keeps every index below n as it is |
| Gathers.OneBlock | deps/vectorclass/vectori256e.h:3455-3466 | one block and a permute return the elements |
| Gathers.TwoBlocks | deps/vectorclass/vectori256e.h:3467-3481 | two blocks and a blend return the elements |
| Gathers.Gather | deps/vectorclass/vectori256e.h:3447-3517 | all three plans return the elements asked for, a negative index is rejected, and the loads stay between 0 and the largest index exactly if it is at least N, or N-1 with smallest index 0 |
| Gathers.GatherOfFirst | deps/vectorclass/vectori256e.h:3462-3465 | with all indexes 0 the gather returns the first element eight times, and reads beyond it |
| Reductions.FoldHalves | deps/vectorclass/vector_convert.h:419-422 | folding in half keeps the set of best elements |
| Reductions.HorizontalBest128 | deps/vectorclass/vector_convert.h:423-456 | the minimum or maximum over all 2, 4, 8 or 16 elements, for all values in the elements that the permutes leave open |
| Reductions.HorizontalBest | deps/vectorclass/vector_convert.h:469-510 | the same at every doubling of the size |
| Reductions.HorizontalTruth | deps/vectorclass/vector_convert.h:416-418 | for truth values, AND is the smallest and OR is the largest |
| Powers.NegativePower | deps/vectorclass/vectorf128.h:1110-1114 | a negative power is the inverse of the positive one, infinite only for 0 |
| Powers.PowTemplate | deps/vectorclass/vectorf128.h:1098-1115 | the power x^n for n >= 0; NaN for the smallest integer; between them the inverse of x^-n, infinite only for x = 0 |
| Powers.FirstPowers | deps/vectorclass/vectorf128.h:1100-1107 | x^0 is 1 for every x, 0 included |
| Powers.LowestBitIs | deps/vectorclass/vectorf128.h:1145 | n - (n & (n-1)) is the lowest bit of n |
| Powers.PowN | deps/vectorclass/vectorf128.h:1138-1184 | the unrolled version gives the same power for every exponent above the smallest integer; for that one it does not compile |
| Powers.PowUnrolled | deps/vectorclass/vectorf128.h:1144-1183 | for exponents from 1 to 255; the accumulator is written before it is read |
| FieldSmoothing.SmoothField2d | python/pplotutil.py:338-375 | each element is the weighted mean of its nine neighbours with the filter matrix, with wrap-around or nothing beyond the edge, in all four modes; an empty field is an index error |
| FieldSmoothing.InteriorMean | python/pplotutil.py:373-375 | the nine weights, away from the edges |
| FieldSmoothing.PeriodicMean | python/pplotutil.py:343-362 | the nine weights with wrap-around, everywhere |
| FieldSmoothing.OpenMean | python/pplotutil.py:367-375 | the weights in two corners of a field that is not periodic |
| FieldSmoothing.OpenEdgeMean | python/pplotutil.py:347-348 | the weights along the first row |
| FieldSmoothing.Expand | python/pplotutil.py:342-363 | the expanded array shows the field and its surroundings, corners included |
| FieldSmoothing.Normalize | python/pplotutil.py:340-371 | 16 inside, 12 at edges, 9 at corners of dimensions that are not periodic |
| FieldSmoothing.Separable | python/pplotutil.py:373-375 | the two dimensions can be filtered one after the other |
| FieldSmoothing.TotalKept | python/pplotutil.py:338-375 | the sum over the whole grid is kept if each dimension is periodic or has two elements |
| FieldSmoothing.TotalLost | python/pplotutil.py:338-375 | otherwise it is not kept for a one in the corner, so that the condition is exact |
| FieldSmoothing.WithinBounds | python/pplotutil.py:365-375 | lower and upper bounds of the field bound the result |
| FieldSmoothing.ConstantsFixed | python/pplotutil.py:365-375 | a constant field other than 0 is fixed exactly if the dimensions that are not periodic have at least two elements |
| VectorPotential.CalcAz | python/pplotutil.py:382-405 | Az before averaging satisfies all of its difference equations on the grid of Bx, with the mean steps (for even coordinates, their steps), and the result is the mean over each cell; errors for empty grids, NaN if x or y has no spacing |
| VectorPotential.UniformField | python/pplotutil.py:382-405 | the four elements of the result for one field |
| VectorPotential.MeanDifference | python/pplotutil.py:384-385 | the common step of evenly spaced coordinates; in general, times the number of steps it is the distance of the ends |
| VectorPotential.FitsBoth | python/pplotutil.py:389-393 | Az before averaging fits Bx at every point below the top row if and only if the discrete divergence is zero |
| VectorPotential.PathIndependent | python/pplotutil.py:389-393 | without divergence, the field summed along any path on the grid is the difference of Az between the ends |
| VectorPotential.TopRowFits | python/pplotutil.py:394-400 | the extrapolated row fits Bx if and only if Bx is constant along the top row (or dx = -dy) |
| VectorPotential.TopRowMisses | python/pplotutil.py:394-400 | a field without divergence whose top row does not fit |
| VectorPotential.AveragedSteps | python/pplotutil.py:403 | a step of the averaged result is the mean of four values of By, and of Bx without divergence |

## Left out

- PermPlanning.PermFlags: of a list with an index out of range only that flag is stated, because no function uses the other bits of such a word.
- Masks.MakeBitMask: a bit mask is a sequence of booleans, not a number.
- Bit operations with a mask of the form 2^k - 1 are written as remainders, and OR of fields that do not overlap as addition; where that depends on a field being empty, it is proved (PermPlanning.CountIsFree).
- Gathers.Lookup: models the branch for tables that are larger than a register, which is the only one that gather functions can reach, and the 32-bit form of the index; the permute and blend functions of integer vectors are taken to have the contracts of those for floats of the same size.
- Reductions.HorizontalBest: one method with a parameter stands for both templates, with boolean vectors in a method of their own (Reductions.HorizontalTruth); NaN, which the callers treat first, is not modelled.
- Powers.PowTemplate: exact real numbers with two special values; rounding, overflow and the sign of zero are not modelled.
- VectorPotential.CalcAz: exact real numbers; an integer element type of Bx, which would truncate Az, and a By smaller than Bx, which is an error or is stretched by the array library, are not modelled.
- FieldSmoothing.SmoothField2d: exact real numbers.
- The integer vectors (`vectori128.h`, `vectori256.h`, `vectori512.h`) and the native 512-bit functions (`vectorf512.h`, `perm16_flags`) are not part of this model; they use the same plans with other instructions.
- `selectf` and `selectd` of `vectorf256e.h` take their arguments in a different order from those of `vectorf128.h` and have no caller in that file.
- The choice between instructions of equal effect that depends only on the compiler version is a parameter.
- `instrset_detect`, element-wise operators, loads and stores other than in gather, and the lookup functions of vectors are left out because they would only add easy members.
- The plotting scripts, the data readers and the main program are input, output and user interface.
