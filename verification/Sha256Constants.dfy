/** What FIPS 180-4 says of the byte order, of the length field, and of where the constants come from. */
module Sha256Constants {
  import opened Bytes
  import opened Division
  import opened Sha256Spec

  // ---------- byte order ----------

  lemma BytesOfWord(b0: bv8, b1: bv8, b2: bv8, b3: bv8)
    ensures OutputBytes(FromBytes(b0, b1, b2, b3)) == [b0, b1, b2, b3]
  {}

  /** A word read from four bytes is written as these bytes. */
  lemma WordsAsBytes(b: seq<bv8>, i: nat)
    requires i + 4 <= |b|
    ensures OutputBytes(BigEndian(b, i)) == b[i..i + 4]
  {
    hide OutputBytes, FromBytes;
    BytesOfWord(b[i], b[i + 1], b[i + 2], b[i + 3]);
  }

  /** The number that bytes are, most significant first. */
  function ValueOf(b: seq<bv8>): nat {
    if b == [] then 0 else 256 * ValueOf(b[..|b| - 1]) + Ix(b[|b| - 1])
  }

  lemma NextByte(b: seq<bv8>, x: bv8)
    ensures ValueOf(b + [x]) == 256 * ValueOf(b) + Ix(x)
  {
    hide Ix;
    assert (b + [x])[..|b|] == b;
  }

  /** The low 32 bits of n, as four bytes. */
  function Low32(n: nat): seq<bv8> {
    [ByteOf(n / 0x100_0000 % 256), ByteOf(n / 0x1_0000 % 256), ByteOf(n / 0x100 % 256), ByteOf(n % 256)]
  }

  lemma FourMore(s: seq<bv8>, a: bv8, b: bv8, c: bv8, d: bv8)
    ensures ValueOf(s + [a, b, c, d]) ==
            0x1_0000_0000 * ValueOf(s) + 0x100_0000 * Ix(a) + 0x1_0000 * Ix(b) + 0x100 * Ix(c) + Ix(d)
  {
    hide Ix, ValueOf;
    assert s + [a, b, c, d] == s + [a] + [b] + [c] + [d];
    NextByte(s, a);
    NextByte(s + [a], b);
    NextByte(s + [a] + [b], c);
    NextByte(s + [a] + [b] + [c], d);
  }

  lemma Low32More(s: seq<bv8>, n: nat)
    ensures ValueOf(s + Low32(n)) == 0x1_0000_0000 * ValueOf(s) + n % TWO_32
  {
    hide ByteOf, Ix, ValueOf;
    FourMore(s, ByteOf(n / 0x100_0000 % 256), ByteOf(n / 0x1_0000 % 256), ByteOf(n / 0x100 % 256), ByteOf(n % 256));
    ByteIx(n / 0x100_0000 % 256);
    ByteIx(n / 0x1_0000 % 256);
    ByteIx(n / 0x100 % 256);
    ByteIx(n % 256);
    LowBytes(n);
  }

  lemma Halves(n: nat)
    ensures Length64(n) == Low32(n / 0x1_0000_0000) + Low32(n)
  {
    hide ByteOf;
    Quotient(n, 0x100);
    Quotient(n, 0x1_0000);
    Quotient(n, 0x100_0000);
  }

  lemma Quotient(n: nat, d: nat)
    requires d > 0
    ensures n / (0x1_0000_0000 * d) == n / 0x1_0000_0000 / d
  {
    var q := n / 0x1_0000_0000;
    var r := n % 0x1_0000_0000;
    DivMod(q, d, q / d, q % d);
    DivMod(n, 0x1_0000_0000 * d, q / d, 0x1_0000_0000 * (q % d) + r);
  }

  /** The length field holds the length. */
  lemma LengthField(n: nat)
    requires n < TWO_64
    ensures ValueOf(Length64(n)) == n
  {
    hide Length64, Low32, ValueOf;
    Halves(n);
    Nothing();
    var high := Low32(n / 0x1_0000_0000);
    assert [] + high == high;
    Low32More([], n / 0x1_0000_0000);
    Low32More(high, n);
  }

  lemma Nothing() ensures ValueOf([]) == 0 {}

  // ---------- the constants ----------

  /** The number a word is. */
  function Value(w: Word): nat {
    ValueOf(OutputBytes(w))
  }

  lemma FourBytes(w: Word, a: bv8, b: bv8, c: bv8, d: bv8)
    requires OutputBytes(w) == [a, b, c, d]
    ensures Value(w) == 0x100_0000 * Ix(a) + 0x1_0000 * Ix(b) + 0x100 * Ix(c) + Ix(d)
  {
    hide Ix, OutputBytes, ValueOf;
    Nothing();
    FourMore([], a, b, c, d);
    assert [] + [a, b, c, d] == [a, b, c, d];
  }

  /** One of four numbers. */
  function Pick(i: nat, a: nat, b: nat, c: nat, d: nat): nat {
    if i == 0 then a else if i == 1 then b else if i == 2 then c else d
  }

  function Primes1(q: nat, i: nat): nat {
    if q == 0 then Pick(i, 2, 3, 5, 7)
    else if q == 1 then Pick(i, 11, 13, 17, 19)
    else if q == 2 then Pick(i, 23, 29, 31, 37)
    else Pick(i, 41, 43, 47, 53)
  }

  function Primes2(q: nat, i: nat): nat {
    if q == 4 then Pick(i, 59, 61, 67, 71)
    else if q == 5 then Pick(i, 73, 79, 83, 89)
    else if q == 6 then Pick(i, 97, 101, 103, 107)
    else Pick(i, 109, 113, 127, 131)
  }

  function Primes3(q: nat, i: nat): nat {
    if q == 8 then Pick(i, 137, 139, 149, 151)
    else if q == 9 then Pick(i, 157, 163, 167, 173)
    else if q == 10 then Pick(i, 179, 181, 191, 193)
    else Pick(i, 197, 199, 211, 223)
  }

  function Primes4(q: nat, i: nat): nat {
    if q == 12 then Pick(i, 227, 229, 233, 239)
    else if q == 13 then Pick(i, 241, 251, 257, 263)
    else if q == 14 then Pick(i, 269, 271, 277, 281)
    else Pick(i, 283, 293, 307, 311)
  }

  /** The first 64 primes, in order. */
  function PrimeAt(t: nat): nat {
    var q, i := t / 4, t % 4;
    if q < 4 then Primes1(q, i) else if q < 8 then Primes2(q, i) else if q < 12 then Primes3(q, i) else Primes4(q, i)
  }

  /** The cube root of p begins with this whole part and this fraction of 32 bits. */
  predicate CubeRoot(p: nat, whole: nat, fraction: nat) {
    var r := 0x1_0000_0000 * whole + fraction;
    r * r * r <= 0x1_0000_0000_0000_0000_0000_0000 * p < (r + 1) * (r + 1) * (r + 1)
  }

  predicate SquareRoot(p: nat, whole: nat, fraction: nat) {
    var r := 0x1_0000_0000 * whole + fraction;
    r * r <= 0x1_0000_0000_0000_0000 * p < (r + 1) * (r + 1)
  }

  /** Constant t is the fraction of the cube root of the t-th prime. */
  ghost predicate IsRoot(t: nat) {
    t < 64 && exists whole :: CubeRoot(PrimeAt(t), whole, Value(KAt(t)))
  }

  lemma Root(t: nat, a: bv8, b: bv8, c: bv8, d: bv8, whole: nat)
    requires t < 64 && OutputBytes(KAt(t)) == [a, b, c, d]
    requires CubeRoot(PrimeAt(t), whole, 0x100_0000 * Ix(a) + 0x1_0000 * Ix(b) + 0x100 * Ix(c) + Ix(d))
    ensures IsRoot(t)
  {
    hide KAt, PrimeAt, CubeRoot, OutputBytes, Ix, Value;
    FourBytes(KAt(t), a, b, c, d);
  }

  lemma Roots0()
    ensures IsRoot(0) && IsRoot(1) && IsRoot(2) && IsRoot(3)
    ensures IsRoot(4) && IsRoot(5) && IsRoot(6) && IsRoot(7)
  {
    hide IsRoot;
    Root(0, 0x42, 0x8a, 0x2f, 0x98, 1);
    Root(1, 0x71, 0x37, 0x44, 0x91, 1);
    Root(2, 0xb5, 0xc0, 0xfb, 0xcf, 1);
    Root(3, 0xe9, 0xb5, 0xdb, 0xa5, 1);
    Root(4, 0x39, 0x56, 0xc2, 0x5b, 2);
    Root(5, 0x59, 0xf1, 0x11, 0xf1, 2);
    Root(6, 0x92, 0x3f, 0x82, 0xa4, 2);
    Root(7, 0xab, 0x1c, 0x5e, 0xd5, 2);
  }

  lemma Roots8()
    ensures IsRoot(8) && IsRoot(9) && IsRoot(10) && IsRoot(11)
    ensures IsRoot(12) && IsRoot(13) && IsRoot(14) && IsRoot(15)
  {
    hide IsRoot;
    Root(8, 0xd8, 0x07, 0xaa, 0x98, 2);
    Root(9, 0x12, 0x83, 0x5b, 0x01, 3);
    Root(10, 0x24, 0x31, 0x85, 0xbe, 3);
    Root(11, 0x55, 0x0c, 0x7d, 0xc3, 3);
    Root(12, 0x72, 0xbe, 0x5d, 0x74, 3);
    Root(13, 0x80, 0xde, 0xb1, 0xfe, 3);
    Root(14, 0x9b, 0xdc, 0x06, 0xa7, 3);
    Root(15, 0xc1, 0x9b, 0xf1, 0x74, 3);
  }

  lemma Roots16()
    ensures IsRoot(16) && IsRoot(17) && IsRoot(18) && IsRoot(19)
    ensures IsRoot(20) && IsRoot(21) && IsRoot(22) && IsRoot(23)
  {
    hide IsRoot;
    Root(16, 0xe4, 0x9b, 0x69, 0xc1, 3);
    Root(17, 0xef, 0xbe, 0x47, 0x86, 3);
    Root(18, 0x0f, 0xc1, 0x9d, 0xc6, 4);
    Root(19, 0x24, 0x0c, 0xa1, 0xcc, 4);
    Root(20, 0x2d, 0xe9, 0x2c, 0x6f, 4);
    Root(21, 0x4a, 0x74, 0x84, 0xaa, 4);
    Root(22, 0x5c, 0xb0, 0xa9, 0xdc, 4);
    Root(23, 0x76, 0xf9, 0x88, 0xda, 4);
  }

  lemma Roots24()
    ensures IsRoot(24) && IsRoot(25) && IsRoot(26) && IsRoot(27)
    ensures IsRoot(28) && IsRoot(29) && IsRoot(30) && IsRoot(31)
  {
    hide IsRoot;
    Root(24, 0x98, 0x3e, 0x51, 0x52, 4);
    Root(25, 0xa8, 0x31, 0xc6, 0x6d, 4);
    Root(26, 0xb0, 0x03, 0x27, 0xc8, 4);
    Root(27, 0xbf, 0x59, 0x7f, 0xc7, 4);
    Root(28, 0xc6, 0xe0, 0x0b, 0xf3, 4);
    Root(29, 0xd5, 0xa7, 0x91, 0x47, 4);
    Root(30, 0x06, 0xca, 0x63, 0x51, 5);
    Root(31, 0x14, 0x29, 0x29, 0x67, 5);
  }

  lemma Roots32()
    ensures IsRoot(32) && IsRoot(33) && IsRoot(34) && IsRoot(35)
    ensures IsRoot(36) && IsRoot(37) && IsRoot(38) && IsRoot(39)
  {
    hide IsRoot;
    Root(32, 0x27, 0xb7, 0x0a, 0x85, 5);
    Root(33, 0x2e, 0x1b, 0x21, 0x38, 5);
    Root(34, 0x4d, 0x2c, 0x6d, 0xfc, 5);
    Root(35, 0x53, 0x38, 0x0d, 0x13, 5);
    Root(36, 0x65, 0x0a, 0x73, 0x54, 5);
    Root(37, 0x76, 0x6a, 0x0a, 0xbb, 5);
    Root(38, 0x81, 0xc2, 0xc9, 0x2e, 5);
    Root(39, 0x92, 0x72, 0x2c, 0x85, 5);
  }

  lemma Roots40()
    ensures IsRoot(40) && IsRoot(41) && IsRoot(42) && IsRoot(43)
    ensures IsRoot(44) && IsRoot(45) && IsRoot(46) && IsRoot(47)
  {
    hide IsRoot;
    Root(40, 0xa2, 0xbf, 0xe8, 0xa1, 5);
    Root(41, 0xa8, 0x1a, 0x66, 0x4b, 5);
    Root(42, 0xc2, 0x4b, 0x8b, 0x70, 5);
    Root(43, 0xc7, 0x6c, 0x51, 0xa3, 5);
    Root(44, 0xd1, 0x92, 0xe8, 0x19, 5);
    Root(45, 0xd6, 0x99, 0x06, 0x24, 5);
    Root(46, 0xf4, 0x0e, 0x35, 0x85, 5);
    Root(47, 0x10, 0x6a, 0xa0, 0x70, 6);
  }

  lemma Roots48()
    ensures IsRoot(48) && IsRoot(49) && IsRoot(50) && IsRoot(51)
    ensures IsRoot(52) && IsRoot(53) && IsRoot(54) && IsRoot(55)
  {
    hide IsRoot;
    Root(48, 0x19, 0xa4, 0xc1, 0x16, 6);
    Root(49, 0x1e, 0x37, 0x6c, 0x08, 6);
    Root(50, 0x27, 0x48, 0x77, 0x4c, 6);
    Root(51, 0x34, 0xb0, 0xbc, 0xb5, 6);
    Root(52, 0x39, 0x1c, 0x0c, 0xb3, 6);
    Root(53, 0x4e, 0xd8, 0xaa, 0x4a, 6);
    Root(54, 0x5b, 0x9c, 0xca, 0x4f, 6);
    Root(55, 0x68, 0x2e, 0x6f, 0xf3, 6);
  }

  lemma Roots56()
    ensures IsRoot(56) && IsRoot(57) && IsRoot(58) && IsRoot(59)
    ensures IsRoot(60) && IsRoot(61) && IsRoot(62) && IsRoot(63)
  {
    hide IsRoot;
    Root(56, 0x74, 0x8f, 0x82, 0xee, 6);
    Root(57, 0x78, 0xa5, 0x63, 0x6f, 6);
    Root(58, 0x84, 0xc8, 0x78, 0x14, 6);
    Root(59, 0x8c, 0xc7, 0x02, 0x08, 6);
    Root(60, 0x90, 0xbe, 0xff, 0xfa, 6);
    Root(61, 0xa4, 0x50, 0x6c, 0xeb, 6);
    Root(62, 0xbe, 0xf9, 0xa3, 0xf7, 6);
    Root(63, 0xc6, 0x71, 0x78, 0xf2, 6);
  }

  /** Section 4.2.2: the constants are the first 32 bits of the fractions of the cube roots of the first 64 primes. */
  lemma ConstantsAreCubeRoots(t: nat)
    requires t < 64
    ensures exists whole :: CubeRoot(PrimeAt(t), whole, Value(K()[t]))
  {
    hide CubeRoot, Value, KAt, PrimeAt;
    assert K()[t] == KAt(t);
    assert IsRoot(t) by { AllRoots(t); }
  }

  lemma AllRoots(t: nat)
    requires t < 64
    ensures IsRoot(t)
  {
    hide IsRoot;
    if t < 8 {
      Roots0();
    } else if t < 16 {
      Roots8();
    } else if t < 24 {
      Roots16();
    } else if t < 32 {
      Roots24();
    } else if t < 40 {
      Roots32();
    } else if t < 48 {
      Roots40();
    } else if t < 56 {
      Roots48();
    } else {
      Roots56();
    }
  }

  lemma InitialValues()
    ensures Value(INITIAL.a) == 0x6A09E667
    ensures Value(INITIAL.b) == 0xBB67AE85
    ensures Value(INITIAL.c) == 0x3C6EF372
    ensures Value(INITIAL.d) == 0xA54FF53A
    ensures Value(INITIAL.e) == 0x510E527F
    ensures Value(INITIAL.f) == 0x9B05688C
    ensures Value(INITIAL.g) == 0x1F83D9AB
    ensures Value(INITIAL.h) == 0x5BE0CD19
  {
    hide Value;
    FourBytes(0x6A09E667, 0x6a, 0x09, 0xe6, 0x67);
    FourBytes(0xBB67AE85, 0xbb, 0x67, 0xae, 0x85);
    FourBytes(0x3C6EF372, 0x3c, 0x6e, 0xf3, 0x72);
    FourBytes(0xA54FF53A, 0xa5, 0x4f, 0xf5, 0x3a);
    FourBytes(0x510E527F, 0x51, 0x0e, 0x52, 0x7f);
    FourBytes(0x9B05688C, 0x9b, 0x05, 0x68, 0x8c);
    FourBytes(0x1F83D9AB, 0x1f, 0x83, 0xd9, 0xab);
    FourBytes(0x5BE0CD19, 0x5b, 0xe0, 0xcd, 0x19);
  }

  /** Section 5.3.3: the initial hash value, by the square roots of the first eight primes. */
  lemma InitialIsSquareRoots()
    ensures SquareRoot(2, 1, Value(INITIAL.a))
    ensures SquareRoot(3, 1, Value(INITIAL.b))
    ensures SquareRoot(5, 2, Value(INITIAL.c))
    ensures SquareRoot(7, 2, Value(INITIAL.d))
    ensures SquareRoot(11, 3, Value(INITIAL.e))
    ensures SquareRoot(13, 3, Value(INITIAL.f))
    ensures SquareRoot(17, 4, Value(INITIAL.g))
    ensures SquareRoot(19, 4, Value(INITIAL.h))
  {
    hide Value;
    InitialValues();
  }
}
