/** The sliding window that rejects replayed sequence numbers: one 64-bit bitmap standing for the set
    of all numbers ever accepted. */
module Replay {
  import opened Words

  const WINDOW_SIZE := 64

  /** Never accepted, and less than 64 behind every number accepted. */
  ghost predicate Fresh(accepted: set<Word>, s: Word) {
    s !in accepted && forall a :: a in accepted ==> a - s < WINDOW_SIZE
  }

  /** Bit i of the bitmap says whether highest - i was accepted. */
  ghost predicate Reflects(highest: Word, bitmap: nat, accepted: set<Word>) {
    && highest in accepted
    && (forall a :: a in accepted ==> a <= highest)
    && forall s: nat :: s <= highest < s + 64 ==> (s in accepted <==> Bit(bitmap, highest - s))
  }

  lemma Slides(highest: Word, bitmap: Word, accepted: set<Word>, s: Word)
    requires Reflects(highest, bitmap, accepted) && s > highest
    ensures var shift := s - highest;
      Reflects(s, if shift >= WINDOW_SIZE then 1 else Or(ShiftLeft(bitmap, shift), 1), accepted + {s})
  {
    hide Bit, ShiftLeft, Or;
    var shift := s - highest;
    var bitmap' := if shift >= WINDOW_SIZE then 1 else Or(ShiftLeft(bitmap, shift), 1);
    forall t: nat | t <= s < t + 64 ensures t in accepted + {s} <==> Bit(bitmap', s - t) {
      BitOfOne(s - t);
      if shift < WINDOW_SIZE {
        BitOr(ShiftLeft(bitmap, shift), 1, s - t);
        BitShifted(bitmap, shift, s - t);
      }
    }
  }

  lemma Marks(highest: Word, bitmap: Word, accepted: set<Word>, s: Word)
    requires Reflects(highest, bitmap, accepted) && s <= highest < s + 64
    ensures Reflects(highest, Or(bitmap, Pow2(highest - s)), accepted + {s})
  {
    hide Bit, Or, Pow2;
    var bitmap' := Or(bitmap, Pow2(highest - s));
    forall t: nat | t <= highest < t + 64 ensures t in accepted + {s} <==> Bit(bitmap', highest - t) {
      BitOr(bitmap, Pow2(highest - s), highest - t);
      BitPow2(highest - s, highest - t);
    }
  }

  class ReplayWindow {
    var highest: Word
    var bitmap: Word
    var initialized: bool
    /** Every number accepted so far. */
    ghost var accepted: set<Word>

    ghost predicate Valid()
      reads this
    {
      if initialized then Reflects(highest, bitmap, accepted) else accepted == {}
    }

    constructor ()
      ensures Valid() && accepted == {}
    {
      highest, bitmap, initialized, accepted := 0, 0, false, {};
    }

    /** Accepts exactly the fresh numbers. */
    method CheckAndMark(s: Word) returns (ok: bool)
      requires Valid()
      modifies this
      ensures Valid()
      ensures ok <==> Fresh(old(accepted), s)
      ensures accepted == old(accepted) + if ok then {s} else {}
    {
      hide ShiftLeft, Bit, Or, And, Pow2;
      if !initialized {
        First(s);
        initialized, highest, bitmap := true, s, 1;
        accepted := {s};
        return true;
      }
      if s > highest {
        Slides(highest, bitmap, accepted, s);
        var shift := s - highest;
        if shift >= WINDOW_SIZE {
          bitmap := 1;
        } else {
          OrFits(ShiftLeft(bitmap, shift), 1);
          bitmap := Or(ShiftLeft(bitmap, shift), 1);
        }
        highest := s;
        accepted := accepted + {s};
        return true;
      }
      var delta := highest - s;
      if delta >= WINDOW_SIZE {
        return false;
      }
      var bit := ShiftLeft(1, delta);
      OneShifted(delta);
      BitTest(bitmap, delta);
      if And(bitmap, bit) != 0 {
        return false;
      }
      Marks(highest, bitmap, accepted, s);
      OrFits(bitmap, bit);
      bitmap := Or(bitmap, bit);
      accepted := accepted + {s};
      return true;
    }
  }

  lemma First(s: Word)
    ensures Reflects(s, 1, {s})
  {
    hide Bit;
    var accepted: set<Word> := {s};
    forall t: nat | t <= s < t + 64 ensures t in accepted <==> Bit(1, s - t) {
      BitOfOne(s - t);
    }
  }
}
