/** 64-bit words as numbers, and their bitwise operations digit by digit. */
module Words {
  import opened Bytes

  type Word = n: nat | n < TWO64

  /** Binary digit d of x. */
  predicate Bit(x: nat, d: nat) {
    if d == 0 then x % 2 == 1 else Bit(x / 2, d - 1)
  }

  function Pow2(n: nat): (r: nat)
    ensures r > 0
  {
    if n == 0 then 1 else 2 * Pow2(n - 1)
  }

  function Digit(b: bool): (r: nat)
    ensures r < 2
  {
    if b then 1 else 0
  }

  /** Bitwise or. */
  function Or(x: nat, y: nat): nat
    decreases x + y
  {
    if x == 0 && y == 0 then 0 else 2 * Or(x / 2, y / 2) + Digit(x % 2 == 1 || y % 2 == 1)
  }

  /** Bitwise and. */
  function And(x: nat, y: nat): nat
    decreases x + y
  {
    if x == 0 && y == 0 then 0 else 2 * And(x / 2, y / 2) + Digit(x % 2 == 1 && y % 2 == 1)
  }

  /** Left shift by n places, each dropping what leaves the word. */
  function ShiftLeft(x: Word, n: nat): Word {
    if n == 0 then x else 2 * ShiftLeft(x, n - 1) % TWO64
  }

  lemma {:induction false} BitZero(d: nat)
    ensures !Bit(0, d)
  {
    if d > 0 { BitZero(d - 1); }
  }

  lemma {:induction false} BitOr(x: nat, y: nat, d: nat)
    ensures Bit(Or(x, y), d) <==> Bit(x, d) || Bit(y, d)
    decreases d
  {
    if d > 0 {
      BitOr(x / 2, y / 2, d - 1);
      BitZero(d - 1);
    }
  }

  lemma {:induction false} BitPow2(n: nat, d: nat)
    ensures Bit(Pow2(n), d) <==> d == n
  {
    if d > 0 {
      if n > 0 { BitPow2(n - 1, d - 1); } else { BitZero(d - 1); }
    }
  }

  lemma BitOfOne(d: nat)
    ensures Bit(1, d) <==> d == 0
  {
    BitPow2(0, d);
  }

  lemma {:induction false} OrBelow(x: nat, y: nat, n: nat)
    requires x < Pow2(n) && y < Pow2(n)
    ensures Or(x, y) < Pow2(n)
    decreases n
  {
    if n > 0 { OrBelow(x / 2, y / 2, n - 1); }
  }

  /** Or stays within the word. */
  lemma OrFits(x: Word, y: Word)
    ensures Or(x, y) < TWO64
  {
    hide Or, Pow2;
    WordSize();
    OrBelow(x, y, 64);
  }

  lemma {:induction false} AndZero(x: nat)
    ensures And(x, 0) == 0
  {
    if x > 0 { AndZero(x / 2); }
  }

  /** Masking with one bit tests it. */
  lemma {:induction false} BitTest(x: nat, n: nat)
    ensures And(x, Pow2(n)) != 0 <==> Bit(x, n)
    decreases n
  {
    if n > 0 {
      assert Pow2(n) / 2 == Pow2(n - 1) && Pow2(n) % 2 == 0;
      BitTest(x / 2, n - 1);
    } else {
      AndZero(x / 2);
    }
  }

  /** Taking away a higher power of two changes no digit below it. */
  lemma {:induction false} BitBelow(x: nat, n: nat, d: nat)
    requires d < n && x >= Pow2(n)
    ensures Bit(x - Pow2(n), d) <==> Bit(x, d)
    decreases d
  {
    assert Pow2(n) == 2 * Pow2(n - 1);
    if d > 0 {
      BitBelow(x / 2, n - 1, d - 1);
      assert (x - Pow2(n)) / 2 == x / 2 - Pow2(n - 1);
    }
  }

  lemma FourMore(n: nat)
    ensures Pow2(n + 4) == 16 * Pow2(n)
  {
    assert Pow2(n + 2) == 2 * Pow2(n + 1);
    assert Pow2(n + 4) == 2 * Pow2(n + 3);
    assert Pow2(n + 3) == 2 * Pow2(n + 2);
  }

  lemma SixteenMore(n: nat)
    ensures Pow2(n + 16) == 0x1_0000 * Pow2(n)
  {
    hide Pow2;
    FourMore(n);
    FourMore(n + 4);
    FourMore(n + 8);
    FourMore(n + 12);
  }

  lemma PowZero()
    ensures Pow2(0) == 1
  {
  }

  lemma WordSize()
    ensures Pow2(64) == TWO64
  {
    PowZero();
    hide Pow2;
    SixteenMore(0);
    SixteenMore(16);
    SixteenMore(32);
    SixteenMore(48);
  }

  lemma Wrapped(x: Word)
    ensures 2 * x % TWO64 == if 2 * x < TWO64 then 2 * x else 2 * x - TWO64
  {
  }

  lemma BitOfDouble(x: nat, d: nat)
    ensures Bit(2 * x, d) <==> d > 0 && Bit(x, d - 1)
  {
  }

  lemma BitDoubled(x: Word, d: nat)
    requires d < 64
    ensures Bit(2 * x % TWO64, d) <==> d > 0 && Bit(x, d - 1)
  {
    hide Bit, Pow2;
    WordSize();
    Wrapped(x);
    BitOfDouble(x, d);
    if 2 * x >= TWO64 {
      BitBelow(2 * x, 64, d);
    }
  }

  lemma {:induction false} BitShifted(x: Word, n: nat, d: nat)
    requires d < 64
    ensures Bit(ShiftLeft(x, n), d) <==> d >= n && Bit(x, d - n)
    decreases n
  {
    hide Bit;
    if n > 0 {
      BitDoubled(ShiftLeft(x, n - 1), d);
      if d > 0 { BitShifted(x, n - 1, d - 1); }
    }
  }

  /** One shifted left is a power of two, as long as it fits. */
  lemma {:induction false} OneShifted(n: nat)
    requires n < 64
    ensures ShiftLeft(1, n) == Pow2(n)
  {
    if n > 0 {
      OneShifted(n - 1);
      PowFits(n);
    }
  }

  lemma PowFits(n: nat)
    requires n < 64
    ensures Pow2(n) < TWO64
  {
    hide Pow2;
    PowMonotone(n, 64);
    WordSize();
  }

  lemma {:induction false} PowMonotone(m: nat, n: nat)
    requires m < n
    ensures Pow2(m) < Pow2(n)
  {
    if m + 1 < n { PowMonotone(m, n - 1); }
  }
}
