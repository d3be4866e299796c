/** Octets and the fixed-width integer encodings the wire formats use. */
module Bytes {

  type Byte = x: int | 0 <= x < 256

  datatype Option<+T> = None | Some(value: T)

  const TWO32 := 0x1_0000_0000
  const TWO64 := 0x1_0000_0000_0000_0000

  /** Rust's `x as u32`: keeps the low 32 bits. */
  function AsU32(x: nat): (r: nat)
    ensures r < TWO32
    ensures x < TWO32 ==> r == x
  {
    x % TWO32
  }

  function Min(a: nat, b: nat): nat {
    if a <= b then a else b
  }

  function Max(a: nat, b: nat): nat {
    if a <= b then b else a
  }

  lemma ConcatAssoc<T>(a: seq<T>, b: seq<T>, c: seq<T>)
    ensures (a + b) + c == a + (b + c)
  {
  }

  /** The pieces, one after the other. */
  function Joined(pieces: seq<seq<Byte>>): seq<Byte> {
    if pieces == [] then [] else pieces[0] + Joined(pieces[1..])
  }

  /** 256 to the n-th power: the number of values n octets hold. */
  function Radix(n: nat): (r: nat)
    ensures r > 0
  {
    if n == 0 then 1 else 256 * Radix(n - 1)
  }

  /** The low n octets of v, least significant first (`to_le_bytes`). */
  function LittleEndian(v: nat, n: nat): (s: seq<Byte>)
    ensures |s| == n
  {
    if n == 0 then [] else [v % 256] + LittleEndian(v / 256, n - 1)
  }

  /** The number a little-endian octet string denotes (`from_le_bytes`). */
  function FromLittleEndian(s: seq<Byte>): (v: nat)
    ensures v < Radix(|s|)
  {
    if s == [] then 0 else s[0] + 256 * FromLittleEndian(s[1..])
  }

  /** The low n octets of v, most significant first (`to_be_bytes`). */
  function BigEndian(v: nat, n: nat): (s: seq<Byte>)
    ensures |s| == n
  {
    if n == 0 then [] else BigEndian(v / 256, n - 1) + [v % 256]
  }

  /** The number a big-endian octet string denotes. */
  function FromBigEndian(s: seq<Byte>): (v: nat)
    ensures v < Radix(|s|)
  {
    if s == [] then 0 else FromBigEndian(s[..|s| - 1]) * 256 + s[|s| - 1]
  }

  /** Little-endian encoding and decoding are inverse, in both directions. */
  lemma {:induction false} LittleEndianInverse(v: nat, n: nat)
    requires v < Radix(n)
    ensures FromLittleEndian(LittleEndian(v, n)) == v
  {
    if n > 0 {
      LittleEndianInverse(v / 256, n - 1);
      assert LittleEndian(v, n)[1..] == LittleEndian(v / 256, n - 1);
    }
  }

  lemma {:induction false} LittleEndianCanonical(s: seq<Byte>)
    ensures LittleEndian(FromLittleEndian(s), |s|) == s
  {
    if s != [] {
      LittleEndianCanonical(s[1..]);
      var v, rest := FromLittleEndian(s), FromLittleEndian(s[1..]);
      assert v % 256 == s[0] && v / 256 == rest;
      assert s == [s[0]] + s[1..];
    }
  }

  /** Big-endian decoding undoes encoding. */
  lemma {:induction false} BigEndianInverse(v: nat, n: nat)
    requires v < Radix(n)
    ensures FromBigEndian(BigEndian(v, n)) == v
  {
    if n > 0 {
      BigEndianInverse(v / 256, n - 1);
      assert BigEndian(v, n)[..n - 1] == BigEndian(v / 256, n - 1);
    }
  }

  lemma RadixValues()
    ensures Radix(1) == 0x100 && Radix(2) == 0x1_0000 && Radix(4) == TWO32 && Radix(8) == TWO64
  {
    assert Radix(2) == 256 * Radix(1);
    assert Radix(3) == 256 * Radix(2);
    assert Radix(4) == 256 * Radix(3);
    assert Radix(5) == 256 * Radix(4);
    assert Radix(6) == 256 * Radix(5);
    assert Radix(7) == 256 * Radix(6);
    assert Radix(8) == 256 * Radix(7);
  }

  // ----- where each octet comes from -----

  lemma TimesStep(d: nat, a: nat, b: nat)
    ensures a < b ==> d * a + d <= d * b
  {
    if a < b {
      var k: nat := b - a - 1;
      assert d * b == d * (a + 1 + k) == d * a + d + d * k;
    }
  }

  lemma QuotientIs(v: nat, d: nat, q: nat, r: nat)
    requires d > 0 && v == d * q + r && r < d
    ensures v / d == q
  {
    var p := v / d;
    assert v == d * p + v % d;
    TimesStep(d, p, q);
    TimesStep(d, q, p);
  }

  /** Dropping an octet and then more of them. */
  lemma DropOctet(v: nat, b: nat)
    requires b > 0
    ensures v / 256 / b == v / (256 * b)
  {
    var q := v / 256;
    var p, s := q / b, q % b;
    assert q == b * p + s;
    assert 256 * (b * p) == (256 * b) * p;
    QuotientIs(v, 256 * b, p, 256 * s + v % 256);
  }

  /** Octet i of a little-endian number is its i-th digit in base 256. */
  lemma {:induction false} LittleEndianAt(v: nat, n: nat, i: nat)
    requires i < n
    ensures LittleEndian(v, n)[i] == v / Radix(i) % 256
  {
    if i == 0 {
      assert Radix(0) == 1;
    } else {
      LittleEndianAt(v / 256, n - 1, i - 1);
      DropOctet(v, Radix(i - 1));
    }
  }

  /** Octet i of a big-endian number of n octets is its digit n - 1 - i in base 256. */
  lemma {:induction false} BigEndianAt(v: nat, n: nat, i: nat)
    requires i < n
    ensures BigEndian(v, n)[i] == v / Radix(n - 1 - i) % 256
  {
    if i == n - 1 {
      assert Radix(0) == 1;
    } else {
      BigEndianAt(v / 256, n - 1, i);
      DropOctet(v, Radix(n - 2 - i));
    }
  }

  lemma {:induction false} BigEndianCanonical(s: seq<Byte>)
    ensures BigEndian(FromBigEndian(s), |s|) == s
  {
    if s != [] {
      var n := |s| - 1;
      BigEndianCanonical(s[..n]);
      var v, rest := FromBigEndian(s), FromBigEndian(s[..n]);
      assert v % 256 == s[n] && v / 256 == rest;
      assert s == s[..n] + [s[n]];
    }
  }
}
