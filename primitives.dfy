/** Fixed-width integers as `struct.unpack` reads them: '>b' '>B' '>h' '>H'
    '>i' '>I' in the Command Console decoder and their '<' counterparts in
    the version-4 decoder. Floats are kept as their 32-bit pattern. */
module Primitives {
  import opened Common

  datatype Endian = Big | Little

  /** The integer formats of `struct`: b, B, h, H, i, I. */
  datatype IntKind = I8 | U8 | I16 | U16 | I32 | U32

  function Width(k: IntKind): nat {
    match k
    case I8 | U8 => 1
    case I16 | U16 => 2
    case I32 | U32 => 4
  }

  predicate IsSigned(k: IntKind) {
    k == I8 || k == I16 || k == I32
  }

  /** 2 to the power of the bit width of `k`. */
  function Modulus(k: IntKind): nat {
    match k
    case I8 | U8 => 0x100
    case I16 | U16 => 0x1_0000
    case I32 | U32 => 0x1_0000_0000
  }

  /** The values a field of kind `k` can hold. */
  predicate InRange(k: IntKind, v: int) {
    if IsSigned(k) then -(Modulus(k) / 2) <= v < Modulus(k) / 2 else 0 <= v < Modulus(k)
  }

  function Pow256(n: nat): nat {
    if n == 0 then 1 else 256 * Pow256(n - 1)
  }

  /** The unsigned value of `b`, most significant byte first. */
  function BigEndian(b: seq<Byte>): nat
    decreases |b|
  {
    if |b| == 0 then 0 else BigEndian(b[..|b| - 1]) * 256 + b[|b| - 1]
  }

  /** The unsigned value of `b`, least significant byte first. */
  function LittleEndian(b: seq<Byte>): nat
    decreases |b|
  {
    if |b| == 0 then 0 else b[0] + 256 * LittleEndian(b[1..])
  }

  function Reverse<T>(s: seq<T>): (r: seq<T>)
    ensures |r| == |s|
    ensures forall i :: 0 <= i < |s| ==> r[i] == s[|s| - 1 - i]
  {
    if |s| == 0 then [] else Reverse(s[1..]) + [s[0]]
  }

  function Unsigned(e: Endian, b: seq<Byte>): nat {
    if e == Big then BigEndian(b) else LittleEndian(b)
  }

  /** The byte that carries the sign bit. */
  function MostSignificant(e: Endian, b: seq<Byte>): Byte
    requires |b| > 0
  {
    if e == Big then b[0] else b[|b| - 1]
  }

  /** `struct.unpack(fmt, b)[0]` for an integer format: two's complement
      for the signed kinds. */
  function Decode(e: Endian, k: IntKind, b: seq<Byte>): int
    requires |b| == Width(k)
  {
    var u := Unsigned(e, b);
    if IsSigned(k) && 2 * u >= Modulus(k) then u - Modulus(k) else u
  }

  /** A 4-byte float, uninterpreted: the unsigned value of its bytes read in
      the file's byte order, so that the same float stored big- or
      little-endian has the same bits. */
  datatype Float32 = Float32(bits: nat)

  function DecodeFloat(e: Endian, b: seq<Byte>): Float32
    requires |b| == 4
  {
    Float32(Unsigned(e, b))
  }

  /** The `w` bytes of `n`, most significant first. */
  function BigEndianBytes(n: nat, w: nat): (r: seq<Byte>)
    ensures |r| == w
  {
    if w == 0 then [] else BigEndianBytes(n / 256, w - 1) + [n % 256]
  }

  /** `struct.pack(fmt, v)` for an integer format. */
  function Encode(e: Endian, k: IntKind, v: int): (r: seq<Byte>)
    requires InRange(k, v)
    ensures |r| == Width(k)
  {
    var u := if v < 0 then v + Modulus(k) else v;
    var bytes := BigEndianBytes(u, Width(k));
    if e == Big then bytes else Reverse(bytes)
  }

  lemma Pow256Values()
    ensures Pow256(0) == 1 && Pow256(1) == 0x100 && Pow256(2) == 0x1_0000
    ensures Pow256(3) == 0x100_0000 && Pow256(4) == 0x1_0000_0000
  {
    assert Pow256(1) == 256 * Pow256(0);
    assert Pow256(2) == 256 * Pow256(1);
    assert Pow256(3) == 256 * Pow256(2);
    assert Pow256(4) == 256 * Pow256(3);
  }

  lemma {:induction false} BigEndianBound(b: seq<Byte>)
    ensures BigEndian(b) < Pow256(|b|)
    decreases |b|
  {
    if |b| > 0 {
      BigEndianBound(b[..|b| - 1]);
    }
  }

  /** The Horner form read from the front: the first byte weighs
      256^(|b|-1). */
  lemma {:induction false} BigEndianFirst(b: seq<Byte>)
    requires |b| >= 1
    ensures BigEndian(b) == (b[0] as int) * Pow256(|b| - 1) + BigEndian(b[1..])
    decreases |b|
  {
    if |b| > 1 {
      var init := b[..|b| - 1];
      var last: int := b[|b| - 1];
      var first: int := b[0];
      var p := Pow256(|b| - 2);
      BigEndianFirst(init);
      assert init[1..] == b[1..][..|b| - 2];
      assert BigEndian(b[1..]) == BigEndian(init[1..]) * 256 + last;
      assert BigEndian(init) == first * p + BigEndian(init[1..]);
      assert Pow256(|b| - 1) == 256 * p;
      assert first * p * 256 == first * (256 * p);
    }
  }

  lemma {:induction false} LittleIsReversedBig(b: seq<Byte>)
    ensures LittleEndian(b) == BigEndian(Reverse(b))
    decreases |b|
  {
    if |b| > 0 {
      LittleIsReversedBig(b[1..]);
      var r := Reverse(b);
      assert r == Reverse(b[1..]) + [b[0]];
      assert r[..|r| - 1] == Reverse(b[1..]);
    }
  }

  lemma SignBitBig(b: seq<Byte>)
    requires |b| == 1 || |b| == 2 || |b| == 4
    ensures BigEndian(b) < Pow256(|b|)
    ensures 2 * BigEndian(b) >= Pow256(|b|) <==> b[0] >= 128
  {
    Pow256Values();
    BigEndianFirst(b);
    BigEndianBound(b);
    BigEndianBound(b[1..]);
    var first: int := b[0];
    if |b| == 1 {
      assert BigEndian(b) == first;
    } else if |b| == 2 {
      assert BigEndian(b) == first * 256 + BigEndian(b[1..]);
    } else {
      assert BigEndian(b) == first * 0x100_0000 + BigEndian(b[1..]);
    }
  }

  /** The sign bit of a field of width 1, 2 or 4 is the top bit of its most
      significant byte. */
  lemma SignBit(e: Endian, b: seq<Byte>)
    requires |b| == 1 || |b| == 2 || |b| == 4
    ensures Unsigned(e, b) < Pow256(|b|)
    ensures 2 * Unsigned(e, b) >= Pow256(|b|) <==> MostSignificant(e, b) >= 128
  {
    if e == Big {
      SignBitBig(b);
    } else {
      LittleIsReversedBig(b);
      SignBitBig(Reverse(b));
    }
  }

  /** A decoded field is a value of its kind, congruent to the unsigned
      reading of its bytes modulo 2^width; it is negative exactly when the
      sign bit is set, and an unsigned kind is the unsigned reading itself. */
  lemma DecodeFacts(e: Endian, k: IntKind, b: seq<Byte>)
    requires |b| == Width(k)
    ensures InRange(k, Decode(e, k, b))
    ensures (Decode(e, k, b) - Unsigned(e, b)) % Modulus(k) == 0
    ensures IsSigned(k) ==> (Decode(e, k, b) < 0 <==> MostSignificant(e, b) >= 128)
    ensures !IsSigned(k) ==> Decode(e, k, b) == Unsigned(e, b)
  {
    Pow256Values();
    SignBit(e, b);
  }

  /** The bits of a float are what '>I' (or '<I') reads from the same four
      bytes. */
  lemma FloatBits(e: Endian, b: seq<Byte>)
    requires |b| == 4
    ensures DecodeFloat(e, b).bits == Decode(e, U32, b) < 0x1_0000_0000
  {
    DecodeFacts(e, U32, b);
  }

  lemma {:induction false} BigEndianBytesRoundTrip(n: nat, w: nat)
    requires n < Pow256(w)
    ensures BigEndian(BigEndianBytes(n, w)) == n
    decreases w
  {
    if w > 0 {
      BigEndianBytesRoundTrip(n / 256, w - 1);
      var r := BigEndianBytes(n, w);
      assert r[..w - 1] == BigEndianBytes(n / 256, w - 1);
    }
  }

  lemma {:induction false} BigEndianBytesOf(b: seq<Byte>)
    ensures BigEndianBytes(BigEndian(b), |b|) == b
    decreases |b|
  {
    if |b| > 0 {
      var init := b[..|b| - 1];
      BigEndianBytesOf(init);
      var n := BigEndian(b);
      assert n / 256 == BigEndian(init) && n % 256 == b[|b| - 1];
      assert b == init + [b[|b| - 1]];
    }
  }

  lemma {:induction false} ReverseReverse<T>(s: seq<T>)
    ensures Reverse(Reverse(s)) == s
  {
  }

  /** Decoding what `struct.pack` wrote gives back the value. */
  lemma DecodeEncode(e: Endian, k: IntKind, v: int)
    requires InRange(k, v)
    ensures Decode(e, k, Encode(e, k, v)) == v
  {
    EncodeUnsigned(e, k, v);
  }

  /** The unsigned reading of an encoded value is that value taken modulo
      2^width into the non-negative range. */
  lemma EncodeUnsigned(e: Endian, k: IntKind, v: int)
    requires InRange(k, v)
    ensures Unsigned(e, Encode(e, k, v)) == if v < 0 then v + Modulus(k) else v
  {
    Pow256Values();
    var u := if v < 0 then v + Modulus(k) else v;
    var bytes := BigEndianBytes(u, Width(k));
    BigEndianBytesRoundTrip(u, Width(k));
    if e == Little {
      LittleIsReversedBig(Reverse(bytes));
      ReverseReverse(bytes);
    }
  }

  /** Encoding a decoded field gives back its bytes: every byte pattern is
      a value, and no two patterns decode alike. */
  lemma EncodeDecode(e: Endian, k: IntKind, b: seq<Byte>)
    requires |b| == Width(k)
    ensures InRange(k, Decode(e, k, b)) && Encode(e, k, Decode(e, k, b)) == b
  {
    DecodeFacts(e, k, b);
    UnsignedOfDecode(e, k, b);
    BytesOfUnsigned(e, b);
    if e == Little {
      ReverseReverse(b);
    }
  }

  /** The big-endian bytes of a field's unsigned reading are its bytes in
      most-significant-first order. */
  lemma BytesOfUnsigned(e: Endian, b: seq<Byte>)
    ensures BigEndianBytes(Unsigned(e, b), |b|) == if e == Big then b else Reverse(b)
  {
    if e == Little {
      LittleIsReversedBig(b);
      BigEndianBytesOf(Reverse(b));
    } else {
      BigEndianBytesOf(b);
    }
  }

  /** The unsigned reading of a field is its decoded value taken modulo
      2^width into the non-negative range. */
  lemma UnsignedOfDecode(e: Endian, k: IntKind, b: seq<Byte>)
    requires |b| == Width(k)
    ensures var v := Decode(e, k, b); (if v < 0 then v + Modulus(k) else v) == Unsigned(e, b)
  {
    Pow256Values();
    SignBit(e, b);
  }

  /** '>I': b0*2^24 + b1*2^16 + b2*2^8 + b3, and '>i' is that minus 2^32
      when b0 >= 128. */
  lemma BigEndian32(b: seq<Byte>)
    requires |b| == 4
    ensures var b0: int, b1: int, b2: int, b3: int := b[0], b[1], b[2], b[3];
            && Decode(Big, U32, b) == b0 * 0x100_0000 + b1 * 0x1_0000 + b2 * 0x100 + b3
            && Decode(Big, I32, b) == Decode(Big, U32, b) - (if b0 >= 128 then 0x1_0000_0000 else 0)
  {
    var b0: int, b1: int, b2: int, b3: int := b[0], b[1], b[2], b[3];
    assert b[..3][..2] == b[..2] && b[..2][..1] == b[..1] && b[..1][..0] == [];
    assert BigEndian(b[..1]) == b0;
    assert BigEndian(b[..2]) == b0 * 256 + b1;
    assert BigEndian(b[..3]) == (b0 * 256 + b1) * 256 + b2;
  }

  /** '<I': b0 + b1*2^8 + b2*2^16 + b3*2^24, and '<i' is that minus 2^32
      when b3 >= 128. */
  lemma LittleEndian32(b: seq<Byte>)
    requires |b| == 4
    ensures var b0: int, b1: int, b2: int, b3: int := b[0], b[1], b[2], b[3];
            && Decode(Little, U32, b) == b0 + b1 * 0x100 + b2 * 0x1_0000 + b3 * 0x100_0000
            && Decode(Little, I32, b) == Decode(Little, U32, b) - (if b3 >= 128 then 0x1_0000_0000 else 0)
  {
    var b0: int, b1: int, b2: int, b3: int := b[0], b[1], b[2], b[3];
    assert b[1..][1..] == b[2..] && b[2..][1..] == b[3..] && b[3..][1..] == [];
    assert LittleEndian(b[3..]) == b3;
    assert LittleEndian(b[2..]) == b2 + 256 * b3;
    assert LittleEndian(b[1..]) == b1 + 256 * (b2 + 256 * b3);
  }
}
