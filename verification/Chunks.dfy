/** Chunk arithmetic. Quotients, remainders and multiples of the packet size are given by repeated
    subtraction and addition, which keeps the proofs about them linear; QuotRemIsDivMod and
    ChunkStartIsProduct say that they are the program's `/`, `%` and `*`. */
module Chunks {

  function Quot(x: nat, d: nat): nat
    requires d > 0
  {
    if x < d then 0 else Quot(x - d, d) + 1
  }

  function Rem(x: nat, d: nat): (r: nat)
    requires d > 0
    ensures r < d && r <= x
  {
    if x < d then x else Rem(x - d, d)
  }

  predicate Multiple(x: nat, d: nat)
    requires d > 0
  {
    Rem(x, d) == 0
  }

  /** The largest multiple of d that is at most x. */
  function FloorTo(x: nat, d: nat): (r: nat)
    requires d > 0
    ensures r <= x < r + d && Multiple(r, d)
  {
    RemSubtracted(x, d);
    x - Rem(x, d)
  }

  lemma {:induction false} RemSubtracted(x: nat, d: nat)
    requires d > 0
    ensures Multiple(x - Rem(x, d), d)
  {
    if x >= d { RemSubtracted(x - d, d); }
  }

  /** Where the i-th chunk starts. */
  function ChunkStart(d: nat, i: nat): (c: nat)
    ensures i > 0 ==> c >= d
  {
    if i == 0 then 0 else ChunkStart(d, i - 1) + d
  }

  lemma {:induction false} ChunkStartIsProduct(d: nat, i: nat)
    ensures ChunkStart(d, i) == i * d
  {
    if i > 0 {
      ChunkStartIsProduct(d, i - 1);
      assert (i - 1) * d + d == i * d;
    }
  }

  lemma {:induction false} QuotRemIsDivMod(x: nat, d: nat)
    requires d > 0
    ensures Quot(x, d) == x / d && Rem(x, d) == x % d
  {
    if x >= d {
      QuotRemIsDivMod(x - d, d);
      DivModStep(x - d, d);
    }
  }

  lemma DivModStep(y: nat, d: nat)
    requires d > 0
    ensures (y + d) / d == y / d + 1 && (y + d) % d == y % d
  {
    var p, q := y / d, (y + d) / d;
    assert y == p * d + y % d && y + d == q * d + (y + d) % d;
    assert (p + 1) * d == p * d + d;
    MulStep(p + 1, q, d);
    MulStep(q, p + 1, d);
  }

  lemma MulStep(a: int, b: int, d: nat)
    ensures a < b ==> a * d + d <= b * d
  {
    if a < b {
      var k: nat := b - a - 1;
      assert k * d >= 0;
      assert b * d == (a + 1 + k) * d == a * d + d + k * d;
    }
  }

  /** x lies Rem(x, d) past the start of the chunk that holds it. */
  lemma {:induction false} ChunkOf(x: nat, d: nat)
    requires d > 0
    ensures ChunkStart(d, Quot(x, d)) == FloorTo(x, d)
  {
    if x >= d { ChunkOf(x - d, d); }
  }

  lemma {:induction false} ChunkStartDivides(d: nat, i: nat)
    requires d > 0
    ensures Multiple(ChunkStart(d, i), d) && Quot(ChunkStart(d, i), d) == i
  {
    if i > 0 { ChunkStartDivides(d, i - 1); }
  }

  /** Later chunks start at least a chunk later. */
  lemma {:induction false} ChunkStartGap(d: nat, i: nat, j: nat)
    ensures i < j ==> ChunkStart(d, i) + d <= ChunkStart(d, j)
    decreases j
  {
    if i < j { ChunkStartGap(d, i, j - 1); }
  }

  /** Multiples lie d apart. */
  lemma {:induction false} MultipleGap(a: nat, b: nat, d: nat)
    requires d > 0 && Multiple(a, d) && Multiple(b, d)
    ensures a < b ==> a + d <= b
  {
    if a >= d && b >= d { MultipleGap(a - d, b - d, d); }
  }

  lemma {:induction false} SumOfMultiples(a: nat, b: nat, d: nat)
    requires d > 0 && Multiple(a, d) && Multiple(b, d)
    ensures Multiple(a + b, d)
  {
    if a >= d { SumOfMultiples(a - d, b, d); }
  }

  /** Adding a multiple of d changes no remainder. */
  lemma {:induction false} RemSum(a: nat, b: nat, d: nat)
    requires d > 0 && Multiple(a, d)
    ensures Rem(a + b, d) == Rem(b, d)
  {
    if a >= d { RemSum(a - d, b, d); }
  }

  /** Numbers with the same remainder lie d apart. */
  lemma {:induction false} RemGap(a: nat, b: nat, d: nat)
    requires d > 0 && Rem(a, d) == Rem(b, d)
    ensures a < b ==> a + d <= b
  {
    if a >= d && b >= d { RemGap(a - d, b - d, d); }
  }

  /** The one multiple of d in the d numbers up to x. */
  lemma FloorIs(c: nat, x: nat, d: nat)
    requires d > 0 && Multiple(c, d) && c <= x < c + d
    ensures FloorTo(x, d) == c
  {
    MultipleGap(c, FloorTo(x, d), d);
    MultipleGap(FloorTo(x, d), c, d);
  }
}
