/** The example of FIPS 197, appendix C.1, worked out: key expansion and cipher for a key of 128 bits. */
module AesKnown {
  import opened AesField
  import opened AesSbox
  import opened AesSboxTable
  import opened AesWord
  import opened AesMix
  import opened AesCipher
  import opened AesTables
  import opened AesKeys
  import opened AesBlock

  // ---------- key expansion, one word ----------

  /** Word i of the expansion is c. */
  ghost predicate IsWord(key: seq<bv8>, nk: nat, i: nat, c: Col) {
    0 < nk && 4 * nk <= |key| && Expanded(key, nk, i) == c
  }

  lemma FirstWord(key: seq<bv8>, nk: nat, i: nat)
    requires i < nk && 4 * nk <= |key|
    ensures IsWord(key, nk, i, KeyColumn(key, i))
  {}

  lemma Rotated(key: seq<bv8>, nk: nat, i: nat, j: nat, c: Col, d: Col)
    requires 0 < nk <= i && i % nk == 0 && i / nk == j + 1
    requires IsWord(key, nk, i - nk, c) && IsWord(key, nk, i - 1, d)
    ensures IsWord(key, nk, i, AddCol(c, AddCol(SubColumn(Col(d.b1, d.b2, d.b3, d.b0)), Col(Rcon(j), 0, 0, 0))))
  {
    hide AddCol, SubColumn, Rcon;
  }

  lemma Substituted(key: seq<bv8>, nk: nat, i: nat, c: Col, d: Col)
    requires 6 < nk <= i && i % nk == 4
    requires IsWord(key, nk, i - nk, c) && IsWord(key, nk, i - 1, d)
    ensures IsWord(key, nk, i, AddCol(c, SubColumn(d)))
  {
    hide AddCol, SubColumn;
  }

  lemma Plain(key: seq<bv8>, nk: nat, i: nat, c: Col, d: Col)
    requires 0 < nk <= i && i % nk != 0 && !(nk > 6 && i % nk == 4)
    requires IsWord(key, nk, i - nk, c) && IsWord(key, nk, i - 1, d)
    ensures IsWord(key, nk, i, AddCol(c, d))
  {
    hide AddCol;
  }

  // ---------- the round keys of the example ----------

  function Key128(): (key: seq<bv8>)
    ensures |key| == 16
  {
    [0x00, 0x01, 0x02, 0x03, 0x04, 0x05, 0x06, 0x07, 0x08, 0x09, 0x0a, 0x0b, 0x0c, 0x0d, 0x0e, 0x0f]
  }

  /** The words of this key. */
  predicate IsKey128(key: seq<bv8>) {
    && |key| == 16
    && KeyColumn(key, 0) == Col(0x00, 0x01, 0x02, 0x03) && KeyColumn(key, 1) == Col(0x04, 0x05, 0x06, 0x07)
    && KeyColumn(key, 2) == Col(0x08, 0x09, 0x0a, 0x0b) && KeyColumn(key, 3) == Col(0x0c, 0x0d, 0x0e, 0x0f)
  }

  lemma Key128Is() ensures IsKey128(Key128()) {}

  lemma Key128At0(key: seq<bv8>)
    requires IsKey128(key)
    ensures IsWord(key, 4, 0, Col(0x00, 0x01, 0x02, 0x03))
    ensures IsWord(key, 4, 1, Col(0x04, 0x05, 0x06, 0x07))
    ensures IsWord(key, 4, 2, Col(0x08, 0x09, 0x0a, 0x0b))
    ensures IsWord(key, 4, 3, Col(0x0c, 0x0d, 0x0e, 0x0f))
  {
    FirstWord(key, 4, 0);
    FirstWord(key, 4, 1);
    FirstWord(key, 4, 2);
    FirstWord(key, 4, 3);
  }

  lemma Key128At4(key: seq<bv8>)
    requires IsKey128(key)
    ensures IsWord(key, 4, 4, Col(0xd6, 0xaa, 0x74, 0xfd))
    ensures IsWord(key, 4, 5, Col(0xd2, 0xaf, 0x72, 0xfa))
    ensures IsWord(key, 4, 6, Col(0xda, 0xa6, 0x78, 0xf1))
    ensures IsWord(key, 4, 7, Col(0xd6, 0xab, 0x76, 0xfe))
  {
    hide IsWord, SBox, Rcon, IsKey128;
    Key128At0(key);
    RconValues();
    Row0();
    Rotated(key, 4, 4, 0, Col(0x00, 0x01, 0x02, 0x03), Col(0x0c, 0x0d, 0x0e, 0x0f));
    Plain(key, 4, 5, Col(0x04, 0x05, 0x06, 0x07), Col(0xd6, 0xaa, 0x74, 0xfd));
    Plain(key, 4, 6, Col(0x08, 0x09, 0x0a, 0x0b), Col(0xd2, 0xaf, 0x72, 0xfa));
    Plain(key, 4, 7, Col(0x0c, 0x0d, 0x0e, 0x0f), Col(0xda, 0xa6, 0x78, 0xf1));
  }

  lemma Key128At8(key: seq<bv8>)
    requires IsKey128(key)
    ensures IsWord(key, 4, 8, Col(0xb6, 0x92, 0xcf, 0x0b))
    ensures IsWord(key, 4, 9, Col(0x64, 0x3d, 0xbd, 0xf1))
    ensures IsWord(key, 4, 10, Col(0xbe, 0x9b, 0xc5, 0x00))
    ensures IsWord(key, 4, 11, Col(0x68, 0x30, 0xb3, 0xfe))
  {
    hide IsWord, SBox, Rcon, IsKey128;
    Key128At4(key);
    RconValues();
    Row7(); Rowa(); Rowd(); Rowf();
    Rotated(key, 4, 8, 1, Col(0xd6, 0xaa, 0x74, 0xfd), Col(0xd6, 0xab, 0x76, 0xfe));
    Plain(key, 4, 9, Col(0xd2, 0xaf, 0x72, 0xfa), Col(0xb6, 0x92, 0xcf, 0x0b));
    Plain(key, 4, 10, Col(0xda, 0xa6, 0x78, 0xf1), Col(0x64, 0x3d, 0xbd, 0xf1));
    Plain(key, 4, 11, Col(0xd6, 0xab, 0x76, 0xfe), Col(0xbe, 0x9b, 0xc5, 0x00));
  }

  lemma Key128At12(key: seq<bv8>)
    requires IsKey128(key)
    ensures IsWord(key, 4, 12, Col(0xb6, 0xff, 0x74, 0x4e))
    ensures IsWord(key, 4, 13, Col(0xd2, 0xc2, 0xc9, 0xbf))
    ensures IsWord(key, 4, 14, Col(0x6c, 0x59, 0x0c, 0xbf))
    ensures IsWord(key, 4, 15, Col(0x04, 0x69, 0xbf, 0x41))
  {
    hide IsWord, SBox, Rcon, IsKey128;
    Key128At8(key);
    RconValues();
    Row3(); Row6(); Rowb(); Rowf();
    Rotated(key, 4, 12, 2, Col(0xb6, 0x92, 0xcf, 0x0b), Col(0x68, 0x30, 0xb3, 0xfe));
    Plain(key, 4, 13, Col(0x64, 0x3d, 0xbd, 0xf1), Col(0xb6, 0xff, 0x74, 0x4e));
    Plain(key, 4, 14, Col(0xbe, 0x9b, 0xc5, 0x00), Col(0xd2, 0xc2, 0xc9, 0xbf));
    Plain(key, 4, 15, Col(0x68, 0x30, 0xb3, 0xfe), Col(0x6c, 0x59, 0x0c, 0xbf));
  }

  lemma Key128At16(key: seq<bv8>)
    requires IsKey128(key)
    ensures IsWord(key, 4, 16, Col(0x47, 0xf7, 0xf7, 0xbc))
    ensures IsWord(key, 4, 17, Col(0x95, 0x35, 0x3e, 0x03))
    ensures IsWord(key, 4, 18, Col(0xf9, 0x6c, 0x32, 0xbc))
    ensures IsWord(key, 4, 19, Col(0xfd, 0x05, 0x8d, 0xfd))
  {
    hide IsWord, SBox, Rcon, IsKey128;
    Key128At12(key);
    RconValues();
    Row0(); Row4(); Row6(); Rowb();
    Rotated(key, 4, 16, 3, Col(0xb6, 0xff, 0x74, 0x4e), Col(0x04, 0x69, 0xbf, 0x41));
    Plain(key, 4, 17, Col(0xd2, 0xc2, 0xc9, 0xbf), Col(0x47, 0xf7, 0xf7, 0xbc));
    Plain(key, 4, 18, Col(0x6c, 0x59, 0x0c, 0xbf), Col(0x95, 0x35, 0x3e, 0x03));
    Plain(key, 4, 19, Col(0x04, 0x69, 0xbf, 0x41), Col(0xf9, 0x6c, 0x32, 0xbc));
  }

  lemma Key128At20(key: seq<bv8>)
    requires IsKey128(key)
    ensures IsWord(key, 4, 20, Col(0x3c, 0xaa, 0xa3, 0xe8))
    ensures IsWord(key, 4, 21, Col(0xa9, 0x9f, 0x9d, 0xeb))
    ensures IsWord(key, 4, 22, Col(0x50, 0xf3, 0xaf, 0x57))
    ensures IsWord(key, 4, 23, Col(0xad, 0xf6, 0x22, 0xaa))
  {
    hide IsWord, SBox, Rcon, IsKey128;
    Key128At16(key);
    RconValues();
    Row0(); Row8(); Rowf();
    Rotated(key, 4, 20, 4, Col(0x47, 0xf7, 0xf7, 0xbc), Col(0xfd, 0x05, 0x8d, 0xfd));
    Plain(key, 4, 21, Col(0x95, 0x35, 0x3e, 0x03), Col(0x3c, 0xaa, 0xa3, 0xe8));
    Plain(key, 4, 22, Col(0xf9, 0x6c, 0x32, 0xbc), Col(0xa9, 0x9f, 0x9d, 0xeb));
    Plain(key, 4, 23, Col(0xfd, 0x05, 0x8d, 0xfd), Col(0x50, 0xf3, 0xaf, 0x57));
  }

  lemma Key128At24(key: seq<bv8>)
    requires IsKey128(key)
    ensures IsWord(key, 4, 24, Col(0x5e, 0x39, 0x0f, 0x7d))
    ensures IsWord(key, 4, 25, Col(0xf7, 0xa6, 0x92, 0x96))
    ensures IsWord(key, 4, 26, Col(0xa7, 0x55, 0x3d, 0xc1))
    ensures IsWord(key, 4, 27, Col(0x0a, 0xa3, 0x1f, 0x6b))
  {
    hide IsWord, SBox, Rcon, IsKey128;
    Key128At20(key);
    RconValues();
    Row2(); Rowa(); Rowf();
    Rotated(key, 4, 24, 5, Col(0x3c, 0xaa, 0xa3, 0xe8), Col(0xad, 0xf6, 0x22, 0xaa));
    Plain(key, 4, 25, Col(0xa9, 0x9f, 0x9d, 0xeb), Col(0x5e, 0x39, 0x0f, 0x7d));
    Plain(key, 4, 26, Col(0x50, 0xf3, 0xaf, 0x57), Col(0xf7, 0xa6, 0x92, 0x96));
    Plain(key, 4, 27, Col(0xad, 0xf6, 0x22, 0xaa), Col(0xa7, 0x55, 0x3d, 0xc1));
  }

  lemma Key128At28(key: seq<bv8>)
    requires IsKey128(key)
    ensures IsWord(key, 4, 28, Col(0x14, 0xf9, 0x70, 0x1a))
    ensures IsWord(key, 4, 29, Col(0xe3, 0x5f, 0xe2, 0x8c))
    ensures IsWord(key, 4, 30, Col(0x44, 0x0a, 0xdf, 0x4d))
    ensures IsWord(key, 4, 31, Col(0x4e, 0xa9, 0xc0, 0x26))
  {
    hide IsWord, SBox, Rcon, IsKey128;
    Key128At24(key);
    RconValues();
    Row0(); Row1(); Row6(); Rowa();
    Rotated(key, 4, 28, 6, Col(0x5e, 0x39, 0x0f, 0x7d), Col(0x0a, 0xa3, 0x1f, 0x6b));
    Plain(key, 4, 29, Col(0xf7, 0xa6, 0x92, 0x96), Col(0x14, 0xf9, 0x70, 0x1a));
    Plain(key, 4, 30, Col(0xa7, 0x55, 0x3d, 0xc1), Col(0xe3, 0x5f, 0xe2, 0x8c));
    Plain(key, 4, 31, Col(0x0a, 0xa3, 0x1f, 0x6b), Col(0x44, 0x0a, 0xdf, 0x4d));
  }

  lemma Key128At32(key: seq<bv8>)
    requires IsKey128(key)
    ensures IsWord(key, 4, 32, Col(0x47, 0x43, 0x87, 0x35))
    ensures IsWord(key, 4, 33, Col(0xa4, 0x1c, 0x65, 0xb9))
    ensures IsWord(key, 4, 34, Col(0xe0, 0x16, 0xba, 0xf4))
    ensures IsWord(key, 4, 35, Col(0xae, 0xbf, 0x7a, 0xd2))
  {
    hide IsWord, SBox, Rcon, IsKey128;
    Key128At28(key);
    RconValues();
    Row2(); Row4(); Rowa(); Rowc();
    Rotated(key, 4, 32, 7, Col(0x14, 0xf9, 0x70, 0x1a), Col(0x4e, 0xa9, 0xc0, 0x26));
    Plain(key, 4, 33, Col(0xe3, 0x5f, 0xe2, 0x8c), Col(0x47, 0x43, 0x87, 0x35));
    Plain(key, 4, 34, Col(0x44, 0x0a, 0xdf, 0x4d), Col(0xa4, 0x1c, 0x65, 0xb9));
    Plain(key, 4, 35, Col(0x4e, 0xa9, 0xc0, 0x26), Col(0xe0, 0x16, 0xba, 0xf4));
  }

  lemma Key128At36(key: seq<bv8>)
    requires IsKey128(key)
    ensures IsWord(key, 4, 36, Col(0x54, 0x99, 0x32, 0xd1))
    ensures IsWord(key, 4, 37, Col(0xf0, 0x85, 0x57, 0x68))
    ensures IsWord(key, 4, 38, Col(0x10, 0x93, 0xed, 0x9c))
    ensures IsWord(key, 4, 39, Col(0xbe, 0x2c, 0x97, 0x4e))
  {
    hide IsWord, SBox, Rcon, IsKey128;
    Key128At32(key);
    RconValues();
    Row7(); Rowa(); Rowb(); Rowd();
    Rotated(key, 4, 36, 8, Col(0x47, 0x43, 0x87, 0x35), Col(0xae, 0xbf, 0x7a, 0xd2));
    Plain(key, 4, 37, Col(0xa4, 0x1c, 0x65, 0xb9), Col(0x54, 0x99, 0x32, 0xd1));
    Plain(key, 4, 38, Col(0xe0, 0x16, 0xba, 0xf4), Col(0xf0, 0x85, 0x57, 0x68));
    Plain(key, 4, 39, Col(0xae, 0xbf, 0x7a, 0xd2), Col(0x10, 0x93, 0xed, 0x9c));
  }

  lemma Key128At40(key: seq<bv8>)
    requires IsKey128(key)
    ensures IsWord(key, 4, 40, Col(0x13, 0x11, 0x1d, 0x7f))
    ensures IsWord(key, 4, 41, Col(0xe3, 0x94, 0x4a, 0x17))
    ensures IsWord(key, 4, 42, Col(0xf3, 0x07, 0xa7, 0x8b))
    ensures IsWord(key, 4, 43, Col(0x4d, 0x2b, 0x30, 0xc5))
  {
    hide IsWord, SBox, Rcon, IsKey128;
    Key128At36(key);
    RconValues();
    Row2(); Row4(); Row9(); Rowb();
    Rotated(key, 4, 40, 9, Col(0x54, 0x99, 0x32, 0xd1), Col(0xbe, 0x2c, 0x97, 0x4e));
    Plain(key, 4, 41, Col(0xf0, 0x85, 0x57, 0x68), Col(0x13, 0x11, 0x1d, 0x7f));
    Plain(key, 4, 42, Col(0x10, 0x93, 0xed, 0x9c), Col(0xe3, 0x94, 0x4a, 0x17));
    Plain(key, 4, 43, Col(0xbe, 0x2c, 0x97, 0x4e), Col(0xf3, 0x07, 0xa7, 0x8b));
  }


  // ---------- the rounds of the example ----------

  /** MixColumns by XTime alone. */
  function Mixed(c: Col): Col {
    Col(Add(Add(XTime(c.b0), Triple(c.b1)), Add(c.b2, c.b3)), Add(Add(XTime(c.b1), Triple(c.b2)), Add(c.b3, c.b0)),
        Add(Add(XTime(c.b2), Triple(c.b3)), Add(c.b0, c.b1)), Add(Add(XTime(c.b3), Triple(c.b0)), Add(c.b1, c.b2)))
  }

  lemma SmallFactors(x: bv8)
    ensures Mul(1, x) == x && Mul(2, x) == XTime(x) && Mul(3, x) == Triple(x)
  {
    assert XTime(1) == 2 && Triple(1) == 3;
    hide MulBits, XTime, Triple;
    OneTimes(x);
    MulBitsXTime(1, x, 8);
    MulBitsTriple(1, x, 8);
  }

  lemma MixIsMixed(c: Col)
    ensures MixColumn(c) == Mixed(c)
  {
    hide Mul, Add, XTime, Triple;
    SmallFactors(c.b0);
    SmallFactors(c.b1);
    SmallFactors(c.b2);
    SmallFactors(c.b3);
  }

  function Plaintext(): (b: seq<bv8>)
    ensures |b| == 16
  {
    [0x00, 0x11, 0x22, 0x33, 0x44, 0x55, 0x66, 0x77, 0x88, 0x99, 0xaa, 0xbb, 0xcc, 0xdd, 0xee, 0xff]
  }

  ghost function After(n: nat): State
    requires n < 11
  {
    Rounds(StateOf(Plaintext()), RoundKeys(Key128(), 4), n)
  }

  lemma Next(n: nat)
    requires 0 < n < 11
    ensures After(n) == Round(After(n - 1), RoundKeys(Key128(), 4)[n])
  {
    hide Round, RoundKeys, StateOf;
  }

  function MixedState(s: State): State {
    State(Mixed(s.c0), Mixed(s.c1), Mixed(s.c2), Mixed(s.c3))
  }

  lemma Layers(a: State, s: State, m: State, k: State, b: State)
    requires ShiftRows(SubBytes(a)) == s && MixedState(s) == m && AddRoundKey(m, k) == b
    ensures Round(a, k) == b
  {
    hide SubBytes, ShiftRows, MixColumn, Mixed, AddRoundKey;
    MixIsMixed(s.c0);
    MixIsMixed(s.c1);
    MixIsMixed(s.c2);
    MixIsMixed(s.c3);
  }

  lemma RoundKey(r: nat, k: State)
    requires r < 11
    requires IsWord(Key128(), 4, 4 * r, k.c0) && IsWord(Key128(), 4, 4 * r + 1, k.c1)
    requires IsWord(Key128(), 4, 4 * r + 2, k.c2) && IsWord(Key128(), 4, 4 * r + 3, k.c3)
    ensures RoundKeys(Key128(), 4)[r] == k
  {
    hide Expanded, Key128;
  }

  lemma Start()
    ensures After(0) == State(Col(0x00, 0x10, 0x20, 0x30), Col(0x40, 0x50, 0x60, 0x70),
                              Col(0x80, 0x90, 0xa0, 0xb0), Col(0xc0, 0xd0, 0xe0, 0xf0))
  {
    hide RoundKeys, IsWord, Key128;
    Key128Is();
    Key128At0(Key128());
    RoundKey(0, State(Col(0x00, 0x01, 0x02, 0x03), Col(0x04, 0x05, 0x06, 0x07),
                       Col(0x08, 0x09, 0x0a, 0x0b), Col(0x0c, 0x0d, 0x0e, 0x0f)));
  }

  lemma Round1()
    ensures After(1) == State(Col(0x89, 0xd8, 0x10, 0xe8), Col(0x85, 0x5a, 0xce, 0x68),
                              Col(0x2d, 0x18, 0x43, 0xd8), Col(0xcb, 0x12, 0x8f, 0xe4))
  {
    hide SBox, RoundKeys, After, Round, IsWord, Key128;
    Start(); Next(1);
    Key128Is();
    Key128At4(Key128());
    RoundKey(1, State(Col(0xd6, 0xaa, 0x74, 0xfd), Col(0xd2, 0xaf, 0x72, 0xfa),
                       Col(0xda, 0xa6, 0x78, 0xf1), Col(0xd6, 0xab, 0x76, 0xfe)));
    Row0(); Row1(); Row2(); Row3(); Row4(); Row5(); Row6(); Row7();
    Row8(); Row9(); Rowa(); Rowb(); Rowc(); Rowd(); Rowe(); Rowf();
    Layers(After(0),
           State(Col(0x63, 0x53, 0xe0, 0x8c), Col(0x09, 0x60, 0xe1, 0x04),
                 Col(0xcd, 0x70, 0xb7, 0x51), Col(0xba, 0xca, 0xd0, 0xe7)),
           State(Col(0x5f, 0x72, 0x64, 0x15), Col(0x57, 0xf5, 0xbc, 0x92),
                 Col(0xf7, 0xbe, 0x3b, 0x29), Col(0x1d, 0xb9, 0xf9, 0x1a)),
           RoundKeys(Key128(), 4)[1],
           State(Col(0x89, 0xd8, 0x10, 0xe8), Col(0x85, 0x5a, 0xce, 0x68),
                 Col(0x2d, 0x18, 0x43, 0xd8), Col(0xcb, 0x12, 0x8f, 0xe4)));
  }

  lemma Round2()
    ensures After(2) == State(Col(0x49, 0x15, 0x59, 0x8f), Col(0x55, 0xe5, 0xd7, 0xa0),
                              Col(0xda, 0xca, 0x94, 0xfa), Col(0x1f, 0x0a, 0x63, 0xf7))
  {
    hide SBox, RoundKeys, After, Round, IsWord, Key128;
    Round1(); Next(2);
    Key128Is();
    Key128At8(Key128());
    RoundKey(2, State(Col(0xb6, 0x92, 0xcf, 0x0b), Col(0x64, 0x3d, 0xbd, 0xf1),
                       Col(0xbe, 0x9b, 0xc5, 0x00), Col(0x68, 0x30, 0xb3, 0xfe)));
    Row1(); Row2(); Row4(); Row5(); Row6(); Row8(); Rowc(); Rowd();
    Rowe();
    Layers(After(1),
           State(Col(0xa7, 0xbe, 0x1a, 0x69), Col(0x97, 0xad, 0x73, 0x9b),
                 Col(0xd8, 0xc9, 0xca, 0x45), Col(0x1f, 0x61, 0x8b, 0x61)),
           State(Col(0xff, 0x87, 0x96, 0x84), Col(0x31, 0xd8, 0x6a, 0x51),
                 Col(0x64, 0x51, 0x51, 0xfa), Col(0x77, 0x3a, 0xd0, 0x09)),
           RoundKeys(Key128(), 4)[2],
           State(Col(0x49, 0x15, 0x59, 0x8f), Col(0x55, 0xe5, 0xd7, 0xa0),
                 Col(0xda, 0xca, 0x94, 0xfa), Col(0x1f, 0x0a, 0x63, 0xf7)));
  }

  lemma Round3()
    ensures After(3) == State(Col(0xfa, 0x63, 0x6a, 0x28), Col(0x25, 0xb3, 0x39, 0xc9),
                              Col(0x40, 0x66, 0x8a, 0x31), Col(0x57, 0x24, 0x4d, 0x17))
  {
    hide SBox, RoundKeys, After, Round, IsWord, Key128;
    Round2(); Next(3);
    Key128Is();
    Key128At12(Key128());
    RoundKey(3, State(Col(0xb6, 0xff, 0x74, 0x4e), Col(0xd2, 0xc2, 0xc9, 0xbf),
                       Col(0x6c, 0x59, 0x0c, 0xbf), Col(0x04, 0x69, 0xbf, 0x41)));
    Row0(); Row1(); Row4(); Row5(); Row6(); Row8(); Row9(); Rowa();
    Rowc(); Rowd(); Rowe(); Rowf();
    Layers(After(2),
           State(Col(0x3b, 0xd9, 0x22, 0x68), Col(0xfc, 0x74, 0xfb, 0x73),
                 Col(0x57, 0x67, 0xcb, 0xe0), Col(0xc0, 0x59, 0x0e, 0x2d)),
           State(Col(0x4c, 0x9c, 0x1e, 0x66), Col(0xf7, 0x71, 0xf0, 0x76),
                 Col(0x2c, 0x3f, 0x86, 0x8e), Col(0x53, 0x4d, 0xf2, 0x56)),
           RoundKeys(Key128(), 4)[3],
           State(Col(0xfa, 0x63, 0x6a, 0x28), Col(0x25, 0xb3, 0x39, 0xc9),
                 Col(0x40, 0x66, 0x8a, 0x31), Col(0x57, 0x24, 0x4d, 0x17)));
  }

  lemma Round4()
    ensures After(4) == State(Col(0x24, 0x72, 0x40, 0x23), Col(0x69, 0x66, 0xb3, 0xfa),
                              Col(0x6e, 0xd2, 0x75, 0x32), Col(0x88, 0x42, 0x5b, 0x6c))
  {
    hide SBox, RoundKeys, After, Round, IsWord, Key128;
    Round3(); Next(4);
    Key128Is();
    Key128At16(Key128());
    RoundKey(4, State(Col(0x47, 0xf7, 0xf7, 0xbc), Col(0x95, 0x35, 0x3e, 0x03),
                       Col(0xf9, 0x6c, 0x32, 0xbc), Col(0xfd, 0x05, 0x8d, 0xfd)));
    Row1(); Row2(); Row3(); Row4(); Row5(); Row6(); Row8(); Rowb();
    Rowc(); Rowf();
    Layers(After(3),
           State(Col(0x2d, 0x6d, 0x7e, 0xf0), Col(0x3f, 0x33, 0xe3, 0x34),
                 Col(0x09, 0x36, 0x02, 0xdd), Col(0x5b, 0xfb, 0x12, 0xc7)),
           State(Col(0x63, 0x85, 0xb7, 0x9f), Col(0xfc, 0x53, 0x8d, 0xf9),
                 Col(0x97, 0xbe, 0x47, 0x8e), Col(0x75, 0x47, 0xd6, 0x91)),
           RoundKeys(Key128(), 4)[4],
           State(Col(0x24, 0x72, 0x40, 0x23), Col(0x69, 0x66, 0xb3, 0xfa),
                 Col(0x6e, 0xd2, 0x75, 0x32), Col(0x88, 0x42, 0x5b, 0x6c)));
  }

  lemma Round5()
    ensures After(5) == State(Col(0xc8, 0x16, 0x77, 0xbc), Col(0x9b, 0x7a, 0xc9, 0x3b),
                              Col(0x25, 0x02, 0x79, 0x92), Col(0xb0, 0x26, 0x19, 0x96))
  {
    hide SBox, RoundKeys, After, Round, IsWord, Key128;
    Round4(); Next(5);
    Key128Is();
    Key128At20(Key128());
    RoundKey(5, State(Col(0x3c, 0xaa, 0xa3, 0xe8), Col(0xa9, 0x9f, 0x9d, 0xeb),
                       Col(0x50, 0xf3, 0xaf, 0x57), Col(0xad, 0xf6, 0x22, 0xaa)));
    Row2(); Row3(); Row4(); Row5(); Row6(); Row7(); Row8(); Rowb();
    Rowd(); Rowf();
    Layers(After(4),
           State(Col(0x36, 0x33, 0x9d, 0x50), Col(0xf9, 0xb5, 0x39, 0x26),
                 Col(0x9f, 0x2c, 0x09, 0x2d), Col(0xc4, 0x40, 0x6d, 0x23)),
           State(Col(0xf4, 0xbc, 0xd4, 0x54), Col(0x32, 0xe5, 0x54, 0xd0),
                 Col(0x75, 0xf1, 0xd6, 0xc5), Col(0x1d, 0xd0, 0x3b, 0x3c)),
           RoundKeys(Key128(), 4)[5],
           State(Col(0xc8, 0x16, 0x77, 0xbc), Col(0x9b, 0x7a, 0xc9, 0x3b),
                 Col(0x25, 0x02, 0x79, 0x92), Col(0xb0, 0x26, 0x19, 0x96)));
  }

  lemma Round6()
    ensures After(6) == State(Col(0xc6, 0x2f, 0xe1, 0x09), Col(0xf7, 0x5e, 0xed, 0xc3),
                              Col(0xcc, 0x79, 0x39, 0x5d), Col(0x84, 0xf9, 0xcf, 0x5d))
  {
    hide SBox, RoundKeys, After, Round, IsWord, Key128;
    Round5(); Next(6);
    Key128Is();
    Key128At24(Key128());
    RoundKey(6, State(Col(0x5e, 0x39, 0x0f, 0x7d), Col(0xf7, 0xa6, 0x92, 0x96),
                       Col(0xa7, 0x55, 0x3d, 0xc1), Col(0x0a, 0xa3, 0x1f, 0x6b)));
    Row0(); Row1(); Row2(); Row3(); Row7(); Row9(); Rowb(); Rowc();
    Layers(After(5),
           State(Col(0xe8, 0xda, 0xb6, 0x90), Col(0x14, 0x77, 0xd4, 0x65),
                 Col(0x3f, 0xf7, 0xf5, 0xe2), Col(0xe7, 0x47, 0xdd, 0x4f)),
           State(Col(0x98, 0x16, 0xee, 0x74), Col(0x00, 0xf8, 0x7f, 0x55),
                 Col(0x6b, 0x2c, 0x04, 0x9c), Col(0x8e, 0x5a, 0xd0, 0x36)),
           RoundKeys(Key128(), 4)[6],
           State(Col(0xc6, 0x2f, 0xe1, 0x09), Col(0xf7, 0x5e, 0xed, 0xc3),
                 Col(0xcc, 0x79, 0x39, 0x5d), Col(0x84, 0xf9, 0xcf, 0x5d)));
  }

  lemma Round7()
    ensures After(7) == State(Col(0xd1, 0x87, 0x6c, 0x0f), Col(0x79, 0xc4, 0x30, 0x0a),
                              Col(0xb4, 0x55, 0x94, 0xad), Col(0xd6, 0x6f, 0xf4, 0x1f))
  {
    hide SBox, RoundKeys, After, Round, IsWord, Key128;
    Round6(); Next(7);
    Key128Is();
    Key128At28(Key128());
    RoundKey(7, State(Col(0x14, 0xf9, 0x70, 0x1a), Col(0xe3, 0x5f, 0xe2, 0x8c),
                       Col(0x44, 0x0a, 0xdf, 0x4d), Col(0x4e, 0xa9, 0xc0, 0x26)));
    Row0(); Row2(); Row3(); Row5(); Row7(); Row8(); Rowc(); Rowe();
    Rowf();
    Layers(After(6),
           State(Col(0xb4, 0x58, 0x12, 0x4c), Col(0x68, 0xb6, 0x8a, 0x01),
                 Col(0x4b, 0x99, 0xf8, 0x2e), Col(0x5f, 0x15, 0x55, 0x4c)),
           State(Col(0xc5, 0x7e, 0x1c, 0x15), Col(0x9a, 0x9b, 0xd2, 0x86),
                 Col(0xf0, 0x5f, 0x4b, 0xe0), Col(0x98, 0xc6, 0x34, 0x39)),
           RoundKeys(Key128(), 4)[7],
           State(Col(0xd1, 0x87, 0x6c, 0x0f), Col(0x79, 0xc4, 0x30, 0x0a),
                 Col(0xb4, 0x55, 0x94, 0xad), Col(0xd6, 0x6f, 0xf4, 0x1f)));
  }

  lemma Round8()
    ensures After(8) == State(Col(0xfd, 0xe3, 0xba, 0xd2), Col(0x05, 0xe5, 0xd0, 0xd7),
                              Col(0x35, 0x47, 0x96, 0x4e), Col(0xf1, 0xfe, 0x37, 0xf1))
  {
    hide SBox, RoundKeys, After, Round, IsWord, Key128;
    Round7(); Next(8);
    Key128Is();
    Key128At32(Key128());
    RoundKey(8, State(Col(0x47, 0x43, 0x87, 0x35), Col(0xa4, 0x1c, 0x65, 0xb9),
                       Col(0xe0, 0x16, 0xba, 0xf4), Col(0xae, 0xbf, 0x7a, 0xd2)));
    Row0(); Row1(); Row3(); Row5(); Row6(); Row7(); Row8(); Row9();
    Rowa(); Rowb(); Rowc(); Rowd(); Rowf();
    Layers(After(7),
           State(Col(0x3e, 0x1c, 0x22, 0xc0), Col(0xb6, 0xfc, 0xbf, 0x76),
                 Col(0x8d, 0xa8, 0x50, 0x67), Col(0xf6, 0x17, 0x04, 0x95)),
           State(Col(0xba, 0xa0, 0x3d, 0xe7), Col(0xa1, 0xf9, 0xb5, 0x6e),
                 Col(0xd5, 0x51, 0x2c, 0xba), Col(0x5f, 0x41, 0x4d, 0x23)),
           RoundKeys(Key128(), 4)[8],
           State(Col(0xfd, 0xe3, 0xba, 0xd2), Col(0x05, 0xe5, 0xd0, 0xd7),
                 Col(0x35, 0x47, 0x96, 0x4e), Col(0xf1, 0xfe, 0x37, 0xf1)));
  }

  lemma Round9()
    ensures After(9) == State(Col(0xbd, 0x6e, 0x7c, 0x3d), Col(0xf2, 0xb5, 0x77, 0x9e),
                              Col(0x0b, 0x61, 0x21, 0x6e), Col(0x8b, 0x10, 0xb6, 0x89))
  {
    hide SBox, RoundKeys, After, Round, IsWord, Key128;
    Round8(); Next(9);
    Key128Is();
    Key128At36(Key128());
    RoundKey(9, State(Col(0x54, 0x99, 0x32, 0xd1), Col(0xf0, 0x85, 0x57, 0x68),
                       Col(0x10, 0x93, 0xed, 0x9c), Col(0xbe, 0x2c, 0x97, 0x4e)));
    Row0(); Row3(); Row4(); Row9(); Rowb(); Rowd(); Rowe(); Rowf();
    Layers(After(8),
           State(Col(0x54, 0xd9, 0x90, 0xa1), Col(0x6b, 0xa0, 0x9a, 0xb5),
                 Col(0x96, 0xbb, 0xf4, 0x0e), Col(0xa1, 0x11, 0x70, 0x2f)),
           State(Col(0xe9, 0xf7, 0x4e, 0xec), Col(0x02, 0x30, 0x20, 0xf6),
                 Col(0x1b, 0xf2, 0xcc, 0xf2), Col(0x35, 0x3c, 0x21, 0xc7)),
           RoundKeys(Key128(), 4)[9],
           State(Col(0xbd, 0x6e, 0x7c, 0x3d), Col(0xf2, 0xb5, 0x77, 0x9e),
                 Col(0x0b, 0x61, 0x21, 0x6e), Col(0x8b, 0x10, 0xb6, 0x89)));
  }

  lemma Last()
    ensures Cipher(StateOf(Plaintext()), RoundKeys(Key128(), 4))
            == State(Col(0x69, 0xc4, 0xe0, 0xd8), Col(0x6a, 0x7b, 0x04, 0x30),
                     Col(0xd8, 0xcd, 0xb7, 0x80), Col(0x70, 0xb4, 0xc5, 0x5a))
  {
    hide SBox, RoundKeys, Rounds, IsWord, Key128;
    Round9();
    Key128Is();
    Key128At40(Key128());
    RoundKey(10, State(Col(0x13, 0x11, 0x1d, 0x7f), Col(0xe3, 0x94, 0x4a, 0x17),
                        Col(0xf3, 0x07, 0xa7, 0x8b), Col(0x4d, 0x2b, 0x30, 0xc5)));
    Row0(); Row1(); Row2(); Row3(); Row6(); Row7(); Row8(); Row9();
    Rowb(); Rowf();
    assert ShiftRows(SubBytes(After(9)))
           == State(Col(0x7a, 0xd5, 0xfd, 0xa7), Col(0x89, 0xef, 0x4e, 0x27),
                    Col(0x2b, 0xca, 0x10, 0x0b), Col(0x3d, 0x9f, 0xf5, 0x9f));
  }

  /** The ciphertext of the example. */
  lemma CiphertextOfExample()
    ensures EncryptBlock(RoundKeys(Key128(), 4), Plaintext())
            == [0x69, 0xc4, 0xe0, 0xd8, 0x6a, 0x7b, 0x04, 0x30, 0xd8, 0xcd, 0xb7, 0x80, 0x70, 0xb4, 0xc5, 0x5a]
  {
    hide Cipher, RoundKeys, StateOf;
    Last();
  }
}
