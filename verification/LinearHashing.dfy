/**
 Linear hashing as the growable clock table uses it: the packed length word,
 the home index of a hash, and what growing by one slot does to home indices.
 */
module LinearHashing {
  import opened Bits

  // ---- The packed length word: low 8 bits hold the minimum shift, the rest a threshold. ----

  function LengthInfoToMinShift(info: nat): nat { info % 256 }

  function LengthInfoToThreshold(info: nat): nat { info / 256 }

  function LengthInfoToUsedLength(info: nat): nat
  {
    Pow2(LengthInfoToMinShift(info)) + LengthInfoToThreshold(info)
  }

  function UsedLengthToLengthInfo(used: nat): nat
    requires used >= 2
  {
    var shift := FloorLog2(used);
    BottomBits(used, shift) * 256 + shift
  }

  /** Every representable length survives encoding and decoding, field by field. */
  lemma LengthInfoRoundTrip(used: nat)
    requires 2 <= used < Pow2(64)
    ensures var info := UsedLengthToLengthInfo(used);
            && LengthInfoToUsedLength(info) == used
            && 0 < LengthInfoToMinShift(info) == FloorLog2(used) <= 63
            && LengthInfoToThreshold(info) == used - Pow2(FloorLog2(used)) < Pow2(FloorLog2(used))
  {
    hide Pow2, FloorLog2;
    var shift := FloorLog2(used);
    LogInRange(used);
    ModIsUnique(used, Pow2(shift), 1, used - Pow2(shift));
    PackedInfo(used - Pow2(shift), shift);
  }

  lemma LogInRange(used: nat)
    requires 2 <= used < Pow2(64)
    ensures 0 < FloorLog2(used) <= 63
  {
    hide Pow2, FloorLog2;
    var shift := FloorLog2(used);
    if shift >= 64 {
      Pow2Monotone(64, shift);
    } else if shift == 0 {
      PowOfZero();
    }
  }

  lemma PowOfZero()
    ensures Pow2(0) == 1
  {
  }

  lemma PackedInfo(threshold: nat, shift: nat)
    requires shift < 256
    ensures (threshold * 256 + shift) % 256 == shift && (threshold * 256 + shift) / 256 == threshold
  {
    ModIsUnique(threshold * 256 + shift, 256, threshold, shift);
  }

  /** A well-formed length word is recovered from the length it stands for. */
  lemma LengthInfoInverse(info: nat)
    requires 0 < LengthInfoToMinShift(info) <= 63
    requires LengthInfoToThreshold(info) < Pow2(LengthInfoToMinShift(info))
    ensures LengthInfoToUsedLength(info) >= 2
    ensures UsedLengthToLengthInfo(LengthInfoToUsedLength(info)) == info
  {
    var shift, t := LengthInfoToMinShift(info), LengthInfoToThreshold(info);
    Pow2Monotone(1, shift);
    FloorLog2Unique(Pow2(shift) + t, shift);
    ModIsUnique(Pow2(shift) + t, Pow2(shift), 1, t);
  }

  // ---- Home indices ----

  /** Hash bits in use for the head at `home` when `used` heads are in use. */
  function HeadShift(used: nat, home: nat): (s: nat)
    requires used >= 2
    ensures s == FloorLog2(used) || s == FloorLog2(used) + 1
  {
    var s := FloorLog2(used);
    if home < used - Pow2(s) || home >= Pow2(s) then s + 1 else s
  }

  function HashShift(used: nat, hash: nat): (s: nat)
    requires used >= 2
  {
    var s := FloorLog2(used);
    if BottomBits(hash, s) < used - Pow2(s) then s + 1 else s
  }

  function HomeIndex(used: nat, hash: nat): (home: nat)
    requires used >= 2
  {
    BottomBits(hash, HashShift(used, hash))
  }

  /** A home index is a used head, and it lies there under the shift of that head. */
  lemma HomeIndexInRange(used: nat, hash: nat)
    requires used >= 2
    ensures HomeIndex(used, hash) < used
    ensures HashShift(used, hash) == HeadShift(used, HomeIndex(used, hash))
    ensures HomeIndex(used, hash) == BottomBits(hash, HeadShift(used, HomeIndex(used, hash)))
  {
    var s := FloorLog2(used);
    BottomBitsStep(hash, s);
    HalfOrFull(Pow2(s), Bit(hash, s));
  }

  lemma HalfOrFull(p: nat, b: nat)
    requires b < 2
    ensures p * b == if b == 0 then 0 else p
  {
  }

  /** A head's shift bits of a hash name that head exactly when it is the hash's home. */
  lemma HomeIndexUnique(used: nat, hash: nat, home: nat)
    requires used >= 2 && home < used
    ensures BottomBits(hash, HeadShift(used, home)) == home <==> HomeIndex(used, hash) == home
  {
    HomeIndexInRange(used, hash);
    var s := FloorLog2(used);
    BottomBitsStep(hash, s);
    HalfOrFull(Pow2(s), Bit(hash, s));
  }

  /**
   Someone who knows an older length finds the present home one hash bit at a time: each head on the way has
   more hash bits in use than were looked at.
   */
  lemma FallForward(saved: nat, used: nat, hash: nat, s: nat)
    requires 2 <= saved <= used
    ensures HashShift(saved, hash) <= HashShift(used, hash)
    ensures HashShift(saved, hash) <= s < HashShift(used, hash) ==>
              BottomBits(hash, s) < used && HeadShift(used, BottomBits(hash, s)) > s
  {
    hide BottomBits;
    var l, u := FloorLog2(saved), FloorLog2(used);
    if u < l {
      Pow2Strict(u, l);
    }
    if s < u {
      Pow2Monotone(s, u);
    }
  }

  /** The head that is split when head `used` is opened. */
  function SplitHome(used: nat): (h: nat)
    requires used >= 2
    ensures h == used - Pow2(FloorLog2(used))
  {
    var s := FloorLog2(used);
    ModIsUnique(used, Pow2(s), 1, used - Pow2(s));
    BottomBits(used, s)
  }

  /** Growing by one gives the split head and the new head one more hash bit, and no other head. */
  lemma GrowShifts(used: nat, home: nat)
    requires used >= 2 && home <= used
    ensures SplitHome(used) < used
    ensures HeadShift(used, SplitHome(used)) == FloorLog2(used)
    ensures home == SplitHome(used) || home == used ==>
              HeadShift(used + 1, home) == FloorLog2(used) + 1
    ensures home != SplitHome(used) && home != used ==>
              HeadShift(used + 1, home) == HeadShift(used, home)
  {
    var s := FloorLog2(used);
    if used + 1 < 2 * Pow2(s) {
      FloorLog2Unique(used + 1, s);
    } else {
      FloorLog2Unique(used + 1, s + 1);
    }
  }

  /**
   Growing by one slot moves no hash except those at the split head, and each of those
   stays there or goes to the new slot by its next hash bit.
   */
  lemma GrowMovesOnlySplitHome(used: nat, hash: nat)
    requires used >= 2
    ensures HomeIndex(used, hash) != SplitHome(used) ==>
              HomeIndex(used + 1, hash) == HomeIndex(used, hash)
    ensures HomeIndex(used, hash) == SplitHome(used) ==>
              HomeIndex(used + 1, hash) ==
              if Bit(hash, FloorLog2(used)) == 0 then SplitHome(used) else used
  {
    hide Bit, BottomBits;
    var s := FloorLog2(used);
    BottomBitsStep(hash, s);
    HalfOrFull(Pow2(s), Bit(hash, s));
    if used + 1 < 2 * Pow2(s) {
      FloorLog2Unique(used + 1, s);
    } else {
      FloorLog2Unique(used + 1, s + 1);
    }
  }
}
