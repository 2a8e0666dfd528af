/** The 64-bit words of the plans. */
module PlanWords {
  // perm_flags and blend_flags of instrset.h pack their plans into such words.

  import opened PermPlanning
  import BlendPlanning
  import opened BitNumbers

  const FLAGS: nat := 32

  // ----- the plan of a permute

  /** The flag at bit k. Bit 11, bits 19 to 27 and bits 29 to 31 are not used. */
  function Flag(r: PermPlan, k: int): bool {
    match k
    case 0 => r.zeroing case 1 => r.perm case 2 => r.allzero case 3 => r.largeblock
    case 4 => r.addz case 5 => r.addz2 case 6 => r.crossLane case 7 => r.samePattern
    case 8 => r.punpckh case 9 => r.punpckl case 10 => r.rotate case 12 => r.shright
    case 13 => r.shleft case 14 => r.rotateBig case 15 => r.broadcast case 16 => r.zext
    case 17 => r.compress case 18 => r.expand case 28 => r.outOfRange case _ => false
  }

  function FlagBits(r: PermPlan): (s: seq<bool>)
    ensures |s| == FLAGS && forall k :: 0 <= k < FLAGS ==> s[k] == Flag(r, k)
  {
    seq(FLAGS, k requires 0 <= k < FLAGS => Flag(r, k))
  }

  /** The number with these bits, and another number above them. */
  function WithBits(s: seq<bool>, above: nat): nat {
    if s == [] then above else (if s[0] then 1 else 0) + 2 * WithBits(s[1..], above)
  }

  lemma {:induction false} BitsAre(s: seq<bool>, above: nat)
    ensures forall k :: 0 <= k < |s| ==> FlagBit(WithBits(s, above), k) == s[k]
    ensures RightShift(WithBits(s, above), |s|) == above
  {
    if s != [] {
      BitsAre(s[1..], above);
      assert WithBits(s, above) / 2 == WithBits(s[1..], above);
      forall k | 0 <= k < |s| ensures FlagBit(WithBits(s, above), k) == s[k] {
        if k > 0 {
          assert FlagBit(WithBits(s[1..], above), k - 1) == s[1..][k - 1];
        }
      }
    }
  }

  lemma {:induction false} SameBits(s: seq<bool>, t: seq<bool>, above: nat, above': nat)
    requires |s| == |t| && WithBits(s, above) == WithBits(t, above')
    ensures s == t && above == above'
  {
    if s != [] {
      SameBits(s[1..], t[1..], above, above');
      assert s == [s[0]] + s[1..] && t == [t[0]] + t[1..];
    }
  }

  /** The count is at perm_rot_count = 32, the pattern at perm_ipattern = 40. */
  function Word(r: PermPlan): nat {
    WithBits(FlagBits(r), r.AboveFlags())
  }

  lemma CountAndPattern(count: nat, pattern: nat)
    requires count < 256
    ensures (count + 256 * pattern) % 256 == count && (count + 256 * pattern) / 256 == pattern
  {
  }

  /** Every field of the plan can be read back from its place in the word. */
  lemma WordDecodes(r: PermPlan)
    requires FieldsFit(r)
    ensures forall k :: 0 <= k < FLAGS ==> FlagBit(Word(r), k) == Flag(r, k)
    ensures var above := RightShift(Word(r), FLAGS); above % 256 == r.rotCount && above / 256 == r.ipattern
  {
    BitsAre(FlagBits(r), r.AboveFlags());
    CountAndPattern(r.rotCount, r.ipattern);
  }

  lemma SameFlag(r: PermPlan, q: PermPlan, k: nat)
    requires k < FLAGS && Word(r) == Word(q)
    ensures Flag(r, k) == Flag(q, k)
  {
    SameBits(FlagBits(r), FlagBits(q), r.AboveFlags(), q.AboveFlags());
    assert FlagBits(r)[k] == FlagBits(q)[k];
  }

  /** So different plans have different words. */
  lemma WordsDiffer(r: PermPlan, q: PermPlan)
    requires FieldsFit(r) && FieldsFit(q) && Word(r) == Word(q)
    ensures r == q
  {
    SameBits(FlagBits(r), FlagBits(q), r.AboveFlags(), q.AboveFlags());
    CountAndPattern(r.rotCount, r.ipattern);
    CountAndPattern(q.rotCount, q.ipattern);
    LowFlags(r, q);
    MiddleFlags(r, q);
    HighFlags(r, q);
  }

  lemma LowFlags(r: PermPlan, q: PermPlan)
    requires Word(r) == Word(q)
    ensures (r.zeroing, r.perm, r.allzero, r.largeblock, r.addz, r.addz2, r.crossLane)
         == (q.zeroing, q.perm, q.allzero, q.largeblock, q.addz, q.addz2, q.crossLane)
  {
    SameFlag(r, q, 0); SameFlag(r, q, 1); SameFlag(r, q, 2); SameFlag(r, q, 3); SameFlag(r, q, 4);
    SameFlag(r, q, 5); SameFlag(r, q, 6);
  }

  lemma MiddleFlags(r: PermPlan, q: PermPlan)
    requires Word(r) == Word(q)
    ensures (r.samePattern, r.punpckh, r.punpckl, r.rotate, r.shright, r.shleft)
         == (q.samePattern, q.punpckh, q.punpckl, q.rotate, q.shright, q.shleft)
  {
    SameFlag(r, q, 7); SameFlag(r, q, 8); SameFlag(r, q, 9); SameFlag(r, q, 10); SameFlag(r, q, 12);
    SameFlag(r, q, 13);
  }

  lemma HighFlags(r: PermPlan, q: PermPlan)
    requires Word(r) == Word(q)
    ensures (r.rotateBig, r.broadcast, r.zext, r.compress, r.expand, r.outOfRange)
         == (q.rotateBig, q.broadcast, q.zext, q.compress, q.expand, q.outOfRange)
  {
    SameFlag(r, q, 14); SameFlag(r, q, 15); SameFlag(r, q, 16); SameFlag(r, q, 17); SameFlag(r, q, 18);
    SameFlag(r, q, 28);
  }

  lemma FlagIsAt(r: PermPlan, k: nat)
    requires k < FLAGS
    ensures FlagBit(Word(r), k) == Flag(r, k)
  {
    BitsAre(FlagBits(r), r.AboveFlags());
  }

  // the places that instrset.h gives to the flags

  lemma LowPlaces(r: PermPlan)
    ensures (FlagBit(Word(r), 0) <==> r.zeroing) && (FlagBit(Word(r), 1) <==> r.perm)
    ensures (FlagBit(Word(r), 2) <==> r.allzero) && (FlagBit(Word(r), 3) <==> r.largeblock)
    ensures (FlagBit(Word(r), 4) <==> r.addz) && (FlagBit(Word(r), 5) <==> r.addz2)
    ensures (FlagBit(Word(r), 6) <==> r.crossLane) && (FlagBit(Word(r), 7) <==> r.samePattern)
  {
    forall k | 0 <= k < 32 ensures FlagBit(Word(r), k) == Flag(r, k) {
      FlagIsAt(r, k);
    }
  }

  lemma HighPlaces(r: PermPlan)
    ensures (FlagBit(Word(r), 8) <==> r.punpckh) && (FlagBit(Word(r), 9) <==> r.punpckl)
    ensures (FlagBit(Word(r), 10) <==> r.rotate) && (FlagBit(Word(r), 12) <==> r.shright)
    ensures (FlagBit(Word(r), 13) <==> r.shleft) && (FlagBit(Word(r), 14) <==> r.rotateBig)
    ensures (FlagBit(Word(r), 15) <==> r.broadcast) && (FlagBit(Word(r), 16) <==> r.zext)
    ensures (FlagBit(Word(r), 17) <==> r.compress) && (FlagBit(Word(r), 18) <==> r.expand)
    ensures (FlagBit(Word(r), 28) <==> r.outOfRange)
    ensures forall k :: k == 11 || 19 <= k <= 27 || 29 <= k <= 31 ==> !FlagBit(Word(r), k)
  {
    forall k | 0 <= k < 32 ensures FlagBit(Word(r), k) == Flag(r, k) {
      FlagIsAt(r, k);
    }
  }

  /** Six bits of count at bit 32, the pattern at bit 40. */
  lemma NumberPlaces(r: PermPlan)
    requires FieldsFit(r)
    ensures RightShift(Word(r), 32) % 256 == r.rotCount && RightShift(Word(r), 40) == r.ipattern
  {
    BitsAre(FlagBits(r), r.AboveFlags());
    EightMore(Word(r), 32);
    CountAndPattern(r.rotCount, r.ipattern);
  }

  lemma EightMore(w: nat, k: nat)
    ensures RightShift(w, k + 8) == RightShift(w, k) / 256
  {
    ShiftedTwice(w, k, 8);
    ShiftsAre(RightShift(w, k));
  }

  // ----- the plan of a blend

  /** The flag at bit k. Bits 10 and 11, bits 21 to 27 and bits 29 to 31 are not used. */
  function BlendFlag(r: BlendPlanning.BlendPlan, k: int): bool {
    match k
    case 0 => r.zeroing case 1 => r.allzero case 2 => r.largeblock case 3 => r.addz
    case 4 => r.fromA case 5 => r.fromB case 6 => r.permA case 7 => r.permB
    case 8 => r.crossLane case 9 => r.samePattern
    case 12 => r.unpack.highAB case 13 => r.unpack.highBA case 14 => r.unpack.lowAB case 15 => r.unpack.lowBA
    case 16 => r.turn.ab case 17 => r.turn.ba case 18 => r.shufab case 19 => r.shufba
    case 20 => r.rotateBig case 28 => r.outOfRange case _ => false
  }

  function BlendFlagBits(r: BlendPlanning.BlendPlan): (s: seq<bool>)
    ensures |s| == FLAGS && forall k :: 0 <= k < FLAGS ==> s[k] == BlendFlag(r, k)
  {
    seq(FLAGS, k requires 0 <= k < FLAGS => BlendFlag(r, k))
  }

  /** The shuffle pattern is at blend_shufpattern = 32, the rotation at blend_rotpattern = 40. */
  function BlendWord(r: BlendPlanning.BlendPlan): nat {
    WithBits(BlendFlagBits(r), r.shufpattern + 256 * r.rotpattern)
  }

  lemma BlendWordDecodes(r: BlendPlanning.BlendPlan)
    requires BlendPlanning.FieldsFit(r)
    ensures forall k :: 0 <= k < FLAGS ==> FlagBit(BlendWord(r), k) == BlendFlag(r, k)
    ensures var above := RightShift(BlendWord(r), FLAGS); above % 256 == r.shufpattern && above / 256 == r.rotpattern
  {
    BitsAre(BlendFlagBits(r), r.shufpattern + 256 * r.rotpattern);
    CountAndPattern(r.shufpattern, r.rotpattern);
  }

  lemma SameBlendFlag(r: BlendPlanning.BlendPlan, q: BlendPlanning.BlendPlan, k: nat)
    requires k < FLAGS && BlendWord(r) == BlendWord(q)
    ensures BlendFlag(r, k) == BlendFlag(q, k)
  {
    SameBits(BlendFlagBits(r), BlendFlagBits(q),
             r.shufpattern + 256 * r.rotpattern, q.shufpattern + 256 * q.rotpattern);
    assert BlendFlagBits(r)[k] == BlendFlagBits(q)[k];
  }

  lemma BlendWordsDiffer(r: BlendPlanning.BlendPlan, q: BlendPlanning.BlendPlan)
    requires BlendPlanning.FieldsFit(r) && BlendPlanning.FieldsFit(q) && BlendWord(r) == BlendWord(q)
    ensures r == q
  {
    SameBits(BlendFlagBits(r), BlendFlagBits(q),
             r.shufpattern + 256 * r.rotpattern, q.shufpattern + 256 * q.rotpattern);
    CountAndPattern(r.shufpattern, r.rotpattern);
    CountAndPattern(q.shufpattern, q.rotpattern);
    LowBlendFlags(r, q);
    MiddleBlendFlags(r, q);
    HighBlendFlags(r, q);
  }

  lemma LowBlendFlags(r: BlendPlanning.BlendPlan, q: BlendPlanning.BlendPlan)
    requires BlendWord(r) == BlendWord(q)
    ensures (r.zeroing, r.allzero, r.largeblock, r.addz, r.fromA, r.fromB, r.permA, r.permB)
         == (q.zeroing, q.allzero, q.largeblock, q.addz, q.fromA, q.fromB, q.permA, q.permB)
  {
    SameBlendFlag(r, q, 0); SameBlendFlag(r, q, 1); SameBlendFlag(r, q, 2); SameBlendFlag(r, q, 3);
    SameBlendFlag(r, q, 4); SameBlendFlag(r, q, 5); SameBlendFlag(r, q, 6); SameBlendFlag(r, q, 7);
  }

  lemma MiddleBlendFlags(r: BlendPlanning.BlendPlan, q: BlendPlanning.BlendPlan)
    requires BlendWord(r) == BlendWord(q)
    ensures (r.crossLane, r.samePattern, r.unpack.highAB, r.unpack.highBA, r.unpack.lowAB, r.unpack.lowBA)
         == (q.crossLane, q.samePattern, q.unpack.highAB, q.unpack.highBA, q.unpack.lowAB, q.unpack.lowBA)
  {
    SameBlendFlag(r, q, 8); SameBlendFlag(r, q, 9); SameBlendFlag(r, q, 12); SameBlendFlag(r, q, 13);
    SameBlendFlag(r, q, 14); SameBlendFlag(r, q, 15);
  }

  lemma HighBlendFlags(r: BlendPlanning.BlendPlan, q: BlendPlanning.BlendPlan)
    requires BlendWord(r) == BlendWord(q)
    ensures (r.turn.ab, r.turn.ba, r.shufab, r.shufba, r.rotateBig, r.outOfRange)
         == (q.turn.ab, q.turn.ba, q.shufab, q.shufba, q.rotateBig, q.outOfRange)
  {
    SameBlendFlag(r, q, 16); SameBlendFlag(r, q, 17); SameBlendFlag(r, q, 18); SameBlendFlag(r, q, 19);
    SameBlendFlag(r, q, 20); SameBlendFlag(r, q, 28);
  }

  lemma BlendFlagIsAt(r: BlendPlanning.BlendPlan, k: nat)
    requires k < FLAGS
    ensures FlagBit(BlendWord(r), k) == BlendFlag(r, k)
  {
    BitsAre(BlendFlagBits(r), r.shufpattern + 256 * r.rotpattern);
  }

  lemma BlendLowPlaces(r: BlendPlanning.BlendPlan)
    ensures (FlagBit(BlendWord(r), 0) <==> r.zeroing) && (FlagBit(BlendWord(r), 1) <==> r.allzero)
    ensures (FlagBit(BlendWord(r), 2) <==> r.largeblock) && (FlagBit(BlendWord(r), 3) <==> r.addz)
    ensures (FlagBit(BlendWord(r), 4) <==> r.fromA) && (FlagBit(BlendWord(r), 5) <==> r.fromB)
    ensures (FlagBit(BlendWord(r), 6) <==> r.permA) && (FlagBit(BlendWord(r), 7) <==> r.permB)
  {
    forall k | 0 <= k < 32 ensures FlagBit(BlendWord(r), k) == BlendFlag(r, k) {
      BlendFlagIsAt(r, k);
    }
  }

  lemma BlendHighPlaces(r: BlendPlanning.BlendPlan)
    ensures (FlagBit(BlendWord(r), 8) <==> r.crossLane) && (FlagBit(BlendWord(r), 9) <==> r.samePattern)
    ensures (FlagBit(BlendWord(r), 12) <==> r.unpack.highAB) && (FlagBit(BlendWord(r), 13) <==> r.unpack.highBA)
    ensures (FlagBit(BlendWord(r), 14) <==> r.unpack.lowAB) && (FlagBit(BlendWord(r), 15) <==> r.unpack.lowBA)
    ensures (FlagBit(BlendWord(r), 16) <==> r.turn.ab) && (FlagBit(BlendWord(r), 17) <==> r.turn.ba)
    ensures (FlagBit(BlendWord(r), 18) <==> r.shufab) && (FlagBit(BlendWord(r), 19) <==> r.shufba)
    ensures (FlagBit(BlendWord(r), 20) <==> r.rotateBig) && (FlagBit(BlendWord(r), 28) <==> r.outOfRange)
    ensures forall k :: 10 <= k <= 11 || 21 <= k <= 27 || 29 <= k <= 31 ==> !FlagBit(BlendWord(r), k)
  {
    forall k | 0 <= k < 32 ensures FlagBit(BlendWord(r), k) == BlendFlag(r, k) {
      BlendFlagIsAt(r, k);
    }
  }

  /** The shuffle pattern at bit 32, the rotation at bit 40. */
  lemma BlendNumberPlaces(r: BlendPlanning.BlendPlan)
    requires BlendPlanning.FieldsFit(r)
    ensures RightShift(BlendWord(r), 32) % 256 == r.shufpattern && RightShift(BlendWord(r), 40) == r.rotpattern
  {
    BitsAre(BlendFlagBits(r), r.shufpattern + 256 * r.rotpattern);
    EightMore(BlendWord(r), 32);
    CountAndPattern(r.shufpattern, r.rotpattern);
  }
}
