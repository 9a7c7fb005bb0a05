/** SHA-256 as FIPS 180-4 states it: functions (4.1.2), constants (4.2.2), padding (5.1.1),
    and the hash computation (6.2). */
module Sha256Spec {
  import opened Bytes
  import opened BlockHash

  type Word = bv32

  /** The amount is a six-bit vector, as a shift of a word takes it. */
  function Rotr(x: Word, n: bv6): Word
    requires n <= 32
  {
    (x >> n) | (x << (32 - n))
  }

  function Ch(x: Word, y: Word, z: Word): Word { (x & y) ^ (!x & z) }
  function Maj(x: Word, y: Word, z: Word): Word { (x & y) ^ (x & z) ^ (y & z) }
  function BigSigma0(x: Word): Word { Rotr(x, 2) ^ Rotr(x, 13) ^ Rotr(x, 22) }
  function BigSigma1(x: Word): Word { Rotr(x, 6) ^ Rotr(x, 11) ^ Rotr(x, 25) }
  function SmallSigma0(x: Word): Word { Rotr(x, 7) ^ Rotr(x, 18) ^ (x >> 3) }
  function SmallSigma1(x: Word): Word { Rotr(x, 17) ^ Rotr(x, 19) ^ (x >> 10) }

  /** Addition modulo 2^32. */
  function Plus(x: Word, y: Word): Word { x + y }

  datatype Row = Row(k0: Word, k1: Word, k2: Word, k3: Word)

  /** The constants of section 4.2.2, four to a row and four rows to a function. */
  function Rows1(q: nat): Row {
    if q == 0 then Row(0x428a2f98, 0x71374491, 0xb5c0fbcf, 0xe9b5dba5)
    else if q == 1 then Row(0x3956c25b, 0x59f111f1, 0x923f82a4, 0xab1c5ed5)
    else if q == 2 then Row(0xd807aa98, 0x12835b01, 0x243185be, 0x550c7dc3)
    else Row(0x72be5d74, 0x80deb1fe, 0x9bdc06a7, 0xc19bf174)
  }

  function Rows2(q: nat): Row {
    if q == 4 then Row(0xe49b69c1, 0xefbe4786, 0x0fc19dc6, 0x240ca1cc)
    else if q == 5 then Row(0x2de92c6f, 0x4a7484aa, 0x5cb0a9dc, 0x76f988da)
    else if q == 6 then Row(0x983e5152, 0xa831c66d, 0xb00327c8, 0xbf597fc7)
    else Row(0xc6e00bf3, 0xd5a79147, 0x06ca6351, 0x14292967)
  }

  function Rows3(q: nat): Row {
    if q == 8 then Row(0x27b70a85, 0x2e1b2138, 0x4d2c6dfc, 0x53380d13)
    else if q == 9 then Row(0x650a7354, 0x766a0abb, 0x81c2c92e, 0x92722c85)
    else if q == 10 then Row(0xa2bfe8a1, 0xa81a664b, 0xc24b8b70, 0xc76c51a3)
    else Row(0xd192e819, 0xd6990624, 0xf40e3585, 0x106aa070)
  }

  function Rows4(q: nat): Row {
    if q == 12 then Row(0x19a4c116, 0x1e376c08, 0x2748774c, 0x34b0bcb5)
    else if q == 13 then Row(0x391c0cb3, 0x4ed8aa4a, 0x5b9cca4f, 0x682e6ff3)
    else if q == 14 then Row(0x748f82ee, 0x78a5636f, 0x84c87814, 0x8cc70208)
    else Row(0x90befffa, 0xa4506ceb, 0xbef9a3f7, 0xc67178f2)
  }

  function KAt(t: nat): Word {
    var q := t / 4;
    var row := if q < 4 then Rows1(q) else if q < 8 then Rows2(q) else if q < 12 then Rows3(q) else Rows4(q);
    if t % 4 == 0 then row.k0 else if t % 4 == 1 then row.k1 else if t % 4 == 2 then row.k2 else row.k3
  }

  function K(): (k: seq<Word>)
    ensures |k| == 64
  {
    seq(64, t requires 0 <= t => KAt(t))
  }

  /** The working variables, and the hash value. */
  datatype Vars = Vars(a: Word, b: Word, c: Word, d: Word, e: Word, f: Word, g: Word, h: Word)

  const INITIAL := Vars(0x6A09E667, 0xBB67AE85, 0x3C6EF372, 0xA54FF53A, 0x510E527F, 0x9B05688C, 0x1F83D9AB, 0x5BE0CD19)

  function FromBytes(b0: bv8, b1: bv8, b2: bv8, b3: bv8): Word {
    ((b0 as bv32) << 24) | ((b1 as bv32) << 16) | ((b2 as bv32) << 8) | (b3 as bv32)
  }

  function BigEndian(b: seq<bv8>, i: nat): Word
    requires i + 4 <= |b|
  {
    FromBytes(b[i], b[i + 1], b[i + 2], b[i + 3])
  }

  /** Step 1 of section 6.2.2: word t of the message schedule of a block. */
  function Schedule(block: Block, t: nat): Word
  {
    if t < 16 then BigEndian(block, 4 * t)
    else Plus(Plus(Plus(SmallSigma1(Schedule(block, t - 2)), Schedule(block, t - 7)),
                   SmallSigma0(Schedule(block, t - 15))),
              Schedule(block, t - 16))
  }

  /** Step 3: one round. */
  function Round(v: Vars, k: Word, w: Word): Vars {
    var t1 := Plus(Plus(Plus(Plus(v.h, BigSigma1(v.e)), Ch(v.e, v.f, v.g)), k), w);
    var t2 := Plus(BigSigma0(v.a), Maj(v.a, v.b, v.c));
    Vars(Plus(t1, t2), v.a, v.b, v.c, Plus(v.d, t1), v.e, v.f, v.g)
  }

  /** The first |ks| rounds, with the constants ks. */
  function Rounds(v: Vars, block: Block, ks: seq<Word>): Vars
    decreases |ks|
  {
    if ks == [] then v
    else
      var t := |ks| - 1;
      Round(Rounds(v, block, ks[..t]), ks[t], Schedule(block, t))
  }

  /** Step 4: the intermediate hash value. */
  function AddVars(u: Vars, v: Vars): Vars {
    Vars(Plus(u.a, v.a), Plus(u.b, v.b), Plus(u.c, v.c), Plus(u.d, v.d),
         Plus(u.e, v.e), Plus(u.f, v.f), Plus(u.g, v.g), Plus(u.h, v.h))
  }

  function Compress(hash: Vars, block: Block): Vars {
    AddVars(hash, Rounds(hash, block, K()))
  }

  /** n as eight bytes, most significant first. */
  function Length64(n: nat): (b: seq<bv8>)
    ensures |b| == 8
  {
    [ByteOf(n / 0x100_0000_0000_0000 % 256), ByteOf(n / 0x1_0000_0000_0000 % 256),
     ByteOf(n / 0x100_0000_0000 % 256), ByteOf(n / 0x1_0000_0000 % 256),
     ByteOf(n / 0x100_0000 % 256), ByteOf(n / 0x1_0000 % 256), ByteOf(n / 0x100 % 256), ByteOf(n % 256)]
  }

  /** Section 5.1.1 on whole bytes: a 1 bit, the least number of zeros, and the bit length. */
  function Padding(n: nat): (p: seq<bv8>)
    ensures (n + |p|) % 64 == 0
  {
    [0x80] + Zeros(ZeroBytes(n)) + Length64(8 * n % TWO_64)
  }

  function OutputBytes(w: Word): (b: seq<bv8>)
    ensures |b| == 4
  {
    [((w >> 24) & 255) as bv8, ((w >> 16) & 255) as bv8, ((w >> 8) & 255) as bv8, (w & 255) as bv8]
  }

  function WordsBytes(ws: seq<Word>): (b: seq<bv8>)
    ensures |b| == 4 * |ws|
  {
    if ws == [] then [] else WordsBytes(ws[..|ws| - 1]) + OutputBytes(ws[|ws| - 1])
  }

  /** The message digest, section 6.2.2. */
  function Digest(v: Vars): (d: seq<bv8>)
    ensures |d| == 32
  {
    WordsBytes([v.a, v.b, v.c, v.d, v.e, v.f, v.g, v.h])
  }

  function Sha256(m: seq<bv8>): (d: seq<bv8>)
    ensures |d| == 32
  {
    Digest(Fold(Compress, INITIAL, m + Padding(|m|)))
  }
}
