/** MD5 as RFC 1321 states it: padding (3.1, 3.2), initial value (3.3), and the four rounds (3.4). */
module Md5Spec {
  import opened Bytes
  import opened Division
  import opened BlockHash

  type Word = bv32

  function F(x: Word, y: Word, z: Word): Word { (x & y) | (!x & z) }
  function G(x: Word, y: Word, z: Word): Word { (x & z) | (y & !z) }
  function H(x: Word, y: Word, z: Word): Word { x ^ y ^ z }
  function I(x: Word, y: Word, z: Word): Word { y ^ (x | !z) }

  /** The auxiliary function of round r. */
  function Aux(r: nat, x: Word, y: Word, z: Word): Word {
    if r == 0 then F(x, y, z) else if r == 1 then G(x, y, z) else if r == 2 then H(x, y, z) else I(x, y, z)
  }

  /** The message word operation i uses. */
  function Index(i: nat): (k: nat)
    ensures k < 16
  {
    if i < 16 then i % 16 else if i < 32 then (5 * i + 1) % 16 else if i < 48 then (3 * i + 5) % 16 else (7 * i) % 16
  }

  /** How far operation i rotates, as a six-bit vector. */
  function Shift(i: nat): (s: bv6)
    ensures 0 < s < 32
  {
    var j := i % 4;
    if i < 16 then (if j == 0 then 7 else if j == 1 then 12 else if j == 2 then 17 else 22)
    else if i < 32 then (if j == 0 then 5 else if j == 1 then 9 else if j == 2 then 14 else 20)
    else if i < 48 then (if j == 0 then 4 else if j == 1 then 11 else if j == 2 then 16 else 23)
    else (if j == 0 then 6 else if j == 1 then 10 else if j == 2 then 15 else 21)
  }

  datatype Row = Row(t0: Word, t1: Word, t2: Word, t3: Word)

  /** The table T of section 3.4: four elements to a row, four rows to a round. */
  function Rows1(q: nat): Row {
    if q == 0 then Row(0xD76AA478, 0xE8C7B756, 0x242070DB, 0xC1BDCEEE)
    else if q == 1 then Row(0xF57C0FAF, 0x4787C62A, 0xA8304613, 0xFD469501)
    else if q == 2 then Row(0x698098D8, 0x8B44F7AF, 0xFFFF5BB1, 0x895CD7BE)
    else Row(0x6B901122, 0xFD987193, 0xA679438E, 0x49B40821)
  }

  function Rows2(q: nat): Row {
    if q == 4 then Row(0xF61E2562, 0xC040B340, 0x265E5A51, 0xE9B6C7AA)
    else if q == 5 then Row(0xD62F105D, 0x02441453, 0xD8A1E681, 0xE7D3FBC8)
    else if q == 6 then Row(0x21E1CDE6, 0xC33707D6, 0xF4D50D87, 0x455A14ED)
    else Row(0xA9E3E905, 0xFCEFA3F8, 0x676F02D9, 0x8D2A4C8A)
  }

  function Rows3(q: nat): Row {
    if q == 8 then Row(0xFFFA3942, 0x8771F681, 0x6D9D6122, 0xFDE5380C)
    else if q == 9 then Row(0xA4BEEA44, 0x4BDECFA9, 0xF6BB4B60, 0xBEBFBC70)
    else if q == 10 then Row(0x289B7EC6, 0xEAA127FA, 0xD4EF3085, 0x04881D05)
    else Row(0xD9D4D039, 0xE6DB99E5, 0x1FA27CF8, 0xC4AC5665)
  }

  function Rows4(q: nat): Row {
    if q == 12 then Row(0xF4292244, 0x432AFF97, 0xAB9423A7, 0xFC93A039)
    else if q == 13 then Row(0x655B59C3, 0x8F0CCC92, 0xFFEFF47D, 0x85845DD1)
    else if q == 14 then Row(0x6FA87E4F, 0xFE2CE6E0, 0xA3014314, 0x4E0811A1)
    else Row(0xF7537E82, 0xBD3AF235, 0x2AD7D2BB, 0xEB86D391)
  }

  function TableRow(q: nat): Row {
    if q < 4 then Rows1(q) else if q < 8 then Rows2(q) else if q < 12 then Rows3(q) else Rows4(q)
  }

  function T(i: nat): Word {
    var row := TableRow(i / 4);
    if i % 4 == 0 then row.t0 else if i % 4 == 1 then row.t1 else if i % 4 == 2 then row.t2 else row.t3
  }

  function Plus(x: Word, y: Word): Word { x + y }

  function Rotl(x: Word, n: bv6): Word
    requires n <= 32
  {
    (x << n) | (x >> (32 - n))
  }

  datatype Vars = Vars(a: Word, b: Word, c: Word, d: Word)

  const INITIAL := Vars(0x67452301, 0xEFCDAB89, 0x98BADCFE, 0x10325476)

  function FromBytes(b0: bv8, b1: bv8, b2: bv8, b3: bv8): Word {
    (b0 as bv32) | ((b1 as bv32) << 8) | ((b2 as bv32) << 16) | ((b3 as bv32) << 24)
  }

  function LittleEndian(b: seq<bv8>, i: nat): Word
    requires i + 4 <= |b|
  {
    FromBytes(b[i], b[i + 1], b[i + 2], b[i + 3])
  }

  /** The 16 words of a block. */
  function WordsOf(block: Block): (x: seq<Word>)
    ensures |x| == 16
  {
    seq(16, i requires 0 <= i < 16 => LittleEndian(block, 4 * i))
  }

  /** Operation i on (a, b, c, d): a = b + ((a + aux(b, c, d) + X[k] + T[i]) <<< s), after which the
      four names move on by one. */
  function Step(v: Vars, x: seq<Word>, i: nat): Vars
    requires |x| == 16
  {
    var sum := Plus(v.a, Plus(Plus(Aux(i / 16, v.b, v.c, v.d), x[Index(i)]), T(i)));
    Vars(v.d, Plus(Rotl(sum, Shift(i)), v.b), v.b, v.c)
  }

  /** The first n operations. */
  function Steps(v: Vars, x: seq<Word>, n: nat): Vars
    requires |x| == 16
    decreases n
  {
    if n == 0 then v else Step(Steps(v, x, n - 1), x, n - 1)
  }

  function AddVars(u: Vars, v: Vars): Vars {
    Vars(Plus(u.a, v.a), Plus(u.b, v.b), Plus(u.c, v.c), Plus(u.d, v.d))
  }

  function Compress(hash: Vars, block: Block): Vars {
    var x := WordsOf(block);
    AddVars(hash, Steps(hash, x, 4 * |x|))
  }

  /** n < 2^32 as four bytes, least significant first. */
  function Length32(n: nat): (b: seq<bv8>)
    ensures |b| == 4
  {
    [ByteOf(n % 256), ByteOf(n / 0x100 % 256), ByteOf(n / 0x1_0000 % 256), ByteOf(n / 0x100_0000 % 256)]
  }

  /** n as eight bytes: the low-order word first. */
  function Length64(n: nat): (b: seq<bv8>)
    ensures |b| == 8
  {
    Length32(n % TWO_32) + Length32(n / TWO_32 % TWO_32)
  }

  /** Padding for n bytes when the length field says total bytes. */
  function PaddingWith(n: nat, total: nat): (p: seq<bv8>)
    ensures (n + |p|) % 64 == 0
  {
    [0x80] + Zeros(ZeroBytes(n)) + Length64(8 * total % TWO_64)
  }

  /** Sections 3.1 and 3.2 on whole bytes. */
  function Padding(n: nat): (p: seq<bv8>)
    ensures (n + |p|) % 64 == 0
  {
    PaddingWith(n, n)
  }

  function OutputBytes(w: Word): (b: seq<bv8>)
    ensures |b| == 4
  {
    [(w & 0xFF) as bv8, ((w >> 8) & 0xFF) as bv8, ((w >> 16) & 0xFF) as bv8, ((w >> 24) & 0xFF) as bv8]
  }

  /** Section 3.5. */
  function Digest(v: Vars): (d: seq<bv8>)
    ensures |d| == 16
  {
    OutputBytes(v.a) + OutputBytes(v.b) + OutputBytes(v.c) + OutputBytes(v.d)
  }

  /** The digest of a message whose length field says total bytes. */
  function Md5With(m: seq<bv8>, total: nat): (d: seq<bv8>)
    ensures |d| == 16
  {
    Digest(Fold(Compress, INITIAL, m + PaddingWith(|m|, total)))
  }

  function Md5(m: seq<bv8>): (d: seq<bv8>)
    ensures |d| == 16
  {
    Digest(Fold(Compress, INITIAL, m + Padding(|m|)))
  }

  // ---------- when a wrong length is seen ----------

  lemma FourBytes(n: nat)
    requires n < TWO_32
    ensures n == n % 256 + 0x100 * (n / 0x100 % 256) + 0x1_0000 * (n / 0x1_0000 % 256)
                 + 0x100_0000 * (n / 0x100_0000 % 256)
  {
    LowBytes(n);
  }

  lemma Length32Injective(n: nat, m: nat)
    requires n < TWO_32 && m < TWO_32 && Length32(n) == Length32(m)
    ensures n == m
  {
    hide ByteOf, Ix;
    var a, b := Length32(n), Length32(m);
    assert a[0] == b[0] && a[1] == b[1] && a[2] == b[2] && a[3] == b[3];
    ByteIx(n % 256);
    ByteIx(m % 256);
    ByteIx(n / 0x100 % 256);
    ByteIx(m / 0x100 % 256);
    ByteIx(n / 0x1_0000 % 256);
    ByteIx(m / 0x1_0000 % 256);
    ByteIx(n / 0x100_0000 % 256);
    ByteIx(m / 0x100_0000 % 256);
    FourBytes(n);
    FourBytes(m);
  }

  lemma Length64Injective(n: nat, m: nat)
    requires n < TWO_64 && m < TWO_64 && Length64(n) == Length64(m)
    ensures n == m
  {
    hide Length32;
    var a, b := Length64(n), Length64(m);
    assert a[..4] == Length32(n % TWO_32) && a[4..] == Length32(n / TWO_32 % TWO_32);
    assert b[..4] == Length32(m % TWO_32) && b[4..] == Length32(m / TWO_32 % TWO_32);
    Length32Injective(n % TWO_32, m % TWO_32);
    Length32Injective(n / TWO_32 % TWO_32, m / TWO_32 % TWO_32);
  }

  /** The padding is that of RFC 1321 if and only if the number of bits counted is right modulo 2^64. */
  lemma PaddingExactly(n: nat, total: nat)
    ensures PaddingWith(n, total) == Padding(n) <==> total % TWO_61 == n % TWO_61
  {
    hide Length64;
    EightTimes(n);
    EightTimes(total);
    var head := [0x80] + Zeros(ZeroBytes(n));
    var a, b := Length64(8 * total % TWO_64), Length64(8 * n % TWO_64);
    assert (head + a)[|head|..] == a && (head + b)[|head|..] == b;
    if PaddingWith(n, total) == Padding(n) {
      Length64Injective(8 * total % TWO_64, 8 * n % TWO_64);
    }
  }

  const TWO_61 := 0x2000_0000_0000_0000

  lemma EightTimes(n: nat)
    ensures 8 * n % TWO_64 == 8 * (n % TWO_61)
  {
    var q := n / TWO_61;
    assert n == TWO_61 * q + n % TWO_61;
    assert 8 * n == TWO_64 * q + 8 * (n % TWO_61);
  }
}
