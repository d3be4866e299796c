/** Variable-length integers of section 16 of RFC 9000: the two high bits of the first octet give the
    length, the other 62 bits at most the value, most significant octet first. */
module Varint {
  import opened Bytes

  const VARINT_MAX := 0x3FFF_FFFF_FFFF_FFFF

  /** The two-bit length code of a value. */
  function Code(v: nat): (c: nat)
    requires v <= VARINT_MAX
    ensures c < 4
  {
    if v <= 63 then 0 else if v <= 16383 then 1 else if v <= 1_073_741_823 then 2 else 3
  }

  /** The length a code stands for. */
  function Length(code: nat): (n: nat)
    requires code < 4
    ensures n == 1 || n == 2 || n == 4 || n == 8
  {
    if code == 0 then 1 else if code == 1 then 2 else if code == 2 then 4 else 8
  }

  function EncodedLen(v: nat): nat
    requires v <= VARINT_MAX
  {
    Length(Code(v))
  }

  /** The code in the two high bits, the value below. The bits do not overlap, so or is addition. */
  function Encoded(v: nat): (s: seq<Byte>)
    requires v <= VARINT_MAX
    ensures |s| == EncodedLen(v)
  {
    if v <= 63 then [v]
    else if v <= 16383 then BigEndian(v + 0x4000, 2)
    else if v <= 1_073_741_823 then BigEndian(v + 0x8000_0000, 4)
    else BigEndian(v + 0xC000_0000_0000_0000, 8)
  }

  /** The value at the front of s and its length, unless s ends too soon. */
  function Decoded(s: seq<Byte>): (r: Option<(nat, nat)>)
    ensures r.Some? ==> 1 <= r.value.1 <= |s|
  {
    if s == [] then None
    else
      var n := Length(s[0] / 64);
      if |s| < n then None else Some((FromBigEndian([s[0] % 64] + s[1..n]), n))
  }

  // ----- inverse -----

  /** x in front of n octets. */
  function Place(x: nat, n: nat): nat {
    if n == 0 then x else 256 * Place(x, n - 1)
  }

  lemma {:induction false} PlaceAdd(x: nat, y: nat, n: nat)
    ensures Place(x + y, n) == Place(x, n) + Place(y, n)
  {
    if n > 0 { PlaceAdd(x, y, n - 1); }
  }

  lemma {:induction false} PlaceRadix(n: nat)
    ensures Place(1, n) == Radix(n)
  {
    if n > 0 { PlaceRadix(n - 1); }
  }

  lemma {:induction false} FirstOctet(b: Byte, s: seq<Byte>)
    ensures FromBigEndian([b] + s) == Place(b, |s|) + FromBigEndian(s)
  {
    if s == [] {
      assert [b] + s == [b] && FromBigEndian([b][..0]) == 0;
    } else {
      var front := s[..|s| - 1];
      FirstOctet(b, front);
      assert ([b] + s)[..|s|] == [b] + front;
    }
  }

  /** If an octet in front of n others makes at least x and less than x + 1 of what x in front of n
      octets is, it is x. */
  lemma CodeIs(b: nat, t: nat, n: nat, low: nat, v: nat)
    requires Place(b, n) + low == v + Place(64 * t, n) && low < Radix(n) && v < Place(64, n)
    ensures b / 64 == t
  {
    PlaceRadix(n);
    if b < 64 * t {
      PlaceAdd(b, 1, n);
      PlaceAdd(b + 1, 64 * t - b - 1, n);
    } else if b >= 64 * t + 64 {
      PlaceAdd(64 * t, 64, n);
      PlaceAdd(64 * t + 64, b - 64 * t - 64, n);
    }
  }

  /** An n + 1 octet number with code t on top of v gives both back. */
  lemma Unpacks(s: seq<Byte>, v: nat, t: nat, n: nat)
    requires |s| == n + 1 && FromBigEndian(s) == v + Place(64 * t, n) && v < Place(64, n)
    ensures s[0] / 64 == t && FromBigEndian([s[0] % 64] + s[1..]) == v
  {
    hide FromBigEndian, Place, Radix;
    var b: nat, rest := s[0], s[1..];
    assert s == [s[0]] + rest;
    FirstOctet(s[0], rest);
    CodeIs(b, t, n, FromBigEndian(rest), v);
    FirstOctet(b % 64, rest);
    PlaceAdd(b % 64, 64 * t, n);
  }

  lemma PlaceValues()
    ensures Place(64, 0) == 0x40
    ensures Place(64, 1) == 0x4000
    ensures Place(64, 3) == 0x4000_0000 && Place(128, 3) == 0x8000_0000
    ensures Place(64, 7) == 0x4000_0000_0000_0000 && Place(192, 7) == 0xC000_0000_0000_0000
  {
    PlaceBy64(1);
    PlaceBy64(3);
    PlaceBy64(7);
    assert Place(1, 1) == 0x100;
    assert Place(1, 2) == 256 * Place(1, 1);
    assert Place(1, 3) == 256 * Place(1, 2);
    assert Place(1, 4) == 256 * Place(1, 3);
    assert Place(1, 5) == 256 * Place(1, 4);
    assert Place(1, 6) == 256 * Place(1, 5);
    assert Place(1, 7) == 256 * Place(1, 6);
  }

  lemma {:induction false} PlaceBy64(n: nat)
    ensures Place(64, n) == 64 * Place(1, n) && Place(128, n) == 128 * Place(1, n) && Place(192, n) == 192 * Place(1, n)
  {
    if n > 0 { PlaceBy64(n - 1); }
  }

  /** The value part of an encoding, and what its first octet says. */
  lemma EncodedUnpacks(v: nat)
    requires v <= VARINT_MAX
    ensures var s := Encoded(v);
      s[0] / 64 == Code(v) && FromBigEndian([s[0] % 64] + s[1..]) == v
  {
    hide BigEndian, FromBigEndian, Place;
    PlaceValues();
    RadixValues();
    var s := Encoded(v);
    if v <= 63 {
      FirstOctet(v, []);
      EmptyIsZero();
      assert [v] + [] == [v] && s[1..] == [] && v % 64 == v;
      PlaceNone(v);
    } else if v <= 16383 {
      BigEndianInverse(v + 0x4000, 2);
      Unpacks(s, v, 1, 1);
    } else if v <= 1_073_741_823 {
      BigEndianInverse(v + 0x8000_0000, 4);
      Unpacks(s, v, 2, 3);
    } else {
      BigEndianInverse(v + 0xC000_0000_0000_0000, 8);
      Unpacks(s, v, 3, 7);
    }
  }

  lemma EmptyIsZero()
    ensures FromBigEndian([]) == 0
  {
  }

  lemma PlaceNone(v: nat)
    ensures Place(v, 0) == v
  {
  }

  /** Decoding undoes encoding, whatever follows. */
  lemma DecodeEncoded(v: nat, rest: seq<Byte>)
    requires v <= VARINT_MAX
    ensures Decoded(Encoded(v) + rest) == Some((v, EncodedLen(v)))
  {
    hide Encoded, FromBigEndian;
    EncodedUnpacks(v);
    var s := Encoded(v) + rest;
    var n := EncodedLen(v);
    assert s[0] == Encoded(v)[0] && s[1..n] == Encoded(v)[1..];
  }

  /** Two to the power of a code. */
  function PowerOfTwo(c: nat): nat {
    if c == 0 then 1 else 2 * PowerOfTwo(c - 1)
  }

  /** Where the bits lie: the two high bits of the first octet are the base-2 logarithm of the length, and what
      remains of it and the octets after it are the value, most significant octet first. */
  lemma EncodedLayout(v: nat)
    requires v <= VARINT_MAX
    ensures var s := Encoded(v);
      && |s| == PowerOfTwo(s[0] / 64)
      && s[0] % 64 == v / Radix(|s| - 1)
      && forall i: nat :: 0 < i < |s| ==> s[i] == v / Radix(|s| - 1 - i) % 256
  {
    hide Encoded, FromBigEndian, BigEndian;
    EncodedUnpacks(v);
    var s := Encoded(v);
    var n := |s|;
    assert PowerOfTwo(1) == 2 && PowerOfTwo(2) == 2 * PowerOfTwo(1) && PowerOfTwo(3) == 2 * PowerOfTwo(2);
    var t := [s[0] % 64] + s[1..];
    BigEndianCanonical(t);
    BigEndianAt(v, n, 0);
    assert t[0] == s[0] % 64;
    TopDigit(v, n);
    forall i: nat | 0 < i < n ensures s[i] == v / Radix(n - 1 - i) % 256 {
      BigEndianAt(v, n, i);
      assert t[i] == s[i];
    }
  }

  /** The top digit of a number that fits n octets. */
  lemma TopDigit(v: nat, n: nat)
    requires n > 0 && v < Radix(n)
    ensures v / Radix(n - 1) % 256 == v / Radix(n - 1)
  {
    var d := Radix(n - 1);
    TimesStep(d, 255, v / d);
    assert v == d * (v / d) + v % d;
  }

  /** A strict prefix of an encoding is not mistaken for a value. */
  lemma DecodePrefix(v: nat, k: nat)
    requires v <= VARINT_MAX && k < EncodedLen(v)
    ensures Decoded(Encoded(v)[..k]) == None
  {
    hide Encoded, FromBigEndian;
    EncodedUnpacks(v);
    if k > 0 {
      assert Encoded(v)[..k][0] == Encoded(v)[0];
    }
  }

  // ----- decoding octet by octet -----

  lemma {:induction false} PlaceGrows(n: nat, m: nat)
    requires n <= m
    ensures Place(64, n) <= Place(64, m)
  {
    if n < m { PlaceGrows(n, m - 1); }
  }

  /** Six bits in front of n octets stay below 64 in front of n octets. */
  lemma SixBits(c: nat, s: seq<Byte>)
    requires c < 64
    ensures FromBigEndian([c] + s) < Place(64, |s|)
  {
    hide FromBigEndian, Place, Radix;
    FirstOctet(c, s);
    PlaceRadix(|s|);
    PlaceAdd(c, 1, |s|);
    PlaceAdd(c + 1, 63 - c, |s|);
  }

  lemma OneMore(s: seq<Byte>, b: Byte)
    ensures FromBigEndian(s + [b]) == FromBigEndian(s) * 256 + b
  {
    assert (s + [b])[..|s|] == s;
  }

  /** A value shifted by an octet still fits 64 bits, as long as there are at most 8 octets. */
  lemma StillFits(c: nat, s: seq<Byte>)
    requires c < 64 && |s| < 7
    ensures FromBigEndian([c] + s) * 256 < TWO64
  {
    hide FromBigEndian;
    SixBits(c, s);
    PlaceGrows(|s| + 1, 7);
    PlaceValues();
  }

  /** Whatever decodes is within 62 bits. */
  lemma DecodedFits(s: seq<Byte>)
    ensures Decoded(s).Some? ==> Decoded(s).value.0 <= VARINT_MAX
  {
    hide FromBigEndian;
    if Decoded(s).Some? {
      var n := Length(s[0] / 64);
      SixBits(s[0] % 64, s[1..n]);
      PlaceGrows(n - 1, 7);
      PlaceValues();
    }
  }

  /** No encoding of a value is shorter than the one Encoded gives. */
  lemma EncodedIsShortest(s: seq<Byte>)
    ensures Decoded(s).Some? ==> Decoded(s).value.0 <= VARINT_MAX && EncodedLen(Decoded(s).value.0) <= Decoded(s).value.1
  {
    hide FromBigEndian;
    DecodedFits(s);
    if Decoded(s).Some? {
      var n := Length(s[0] / 64);
      SixBits(s[0] % 64, s[1..n]);
      PlaceValues();
    }
  }

  method Decode(buf: seq<Byte>) returns (r: Option<(nat, nat)>)
    ensures r == Decoded(buf)
    ensures r.Some? ==> r.value.0 <= VARINT_MAX
  {
    hide FromBigEndian;
    if buf == [] {
      return None;
    }
    var first := buf[0];
    var len := Length(first / 64);
    if |buf| < len {
      return None;
    }
    var v: nat := first % 64;
    FirstOctet(first % 64, []);
    EmptyIsZero();
    PlaceNone(first % 64);
    assert [first % 64] + [] == [first % 64] + buf[1..1];
    var i := 1;
    while i < len
      invariant 1 <= i <= len && v == FromBigEndian([first % 64] + buf[1..i])
    {
      StillFits(first % 64, buf[1..i]);
      OneMore([first % 64] + buf[1..i], buf[i]);
      assert [first % 64] + buf[1..i + 1] == ([first % 64] + buf[1..i]) + [buf[i]];
      v := v * 256 % TWO64 + buf[i];
      i := i + 1;
    }
    DecodedFits(buf);
    return Some((v, len));
  }
}
