/** The key expansions of 192 and 256 bits of FIPS 197, appendix A, worked out. */
module AesKnownKeys {
  import opened AesField
  import opened AesSbox
  import opened AesSboxTable
  import opened AesWord
  import opened AesMix
  import opened AesCipher
  import opened AesTables
  import opened AesKeys
  import opened AesKnown

  function Key192(): (key: seq<bv8>)
    ensures |key| == 24
  {
    [0x8e, 0x73, 0xb0, 0xf7, 0xda, 0x0e, 0x64, 0x52, 0xc8, 0x10, 0xf3, 0x2b]
    + [0x80, 0x90, 0x79, 0xe5, 0x62, 0xf8, 0xea, 0xd2, 0x52, 0x2c, 0x6b, 0x7b]
  }

  /** The words of this key. */
  predicate IsKey192(key: seq<bv8>) {
    && |key| == 24
    && KeyColumn(key, 0) == Col(0x8e, 0x73, 0xb0, 0xf7) && KeyColumn(key, 1) == Col(0xda, 0x0e, 0x64, 0x52)
    && KeyColumn(key, 2) == Col(0xc8, 0x10, 0xf3, 0x2b) && KeyColumn(key, 3) == Col(0x80, 0x90, 0x79, 0xe5)
    && KeyColumn(key, 4) == Col(0x62, 0xf8, 0xea, 0xd2) && KeyColumn(key, 5) == Col(0x52, 0x2c, 0x6b, 0x7b)
  }

  lemma Key192Is() ensures IsKey192(Key192()) {}

  lemma Key192At0(key: seq<bv8>)
    requires IsKey192(key)
    ensures IsWord(key, 6, 0, Col(0x8e, 0x73, 0xb0, 0xf7))
    ensures IsWord(key, 6, 1, Col(0xda, 0x0e, 0x64, 0x52))
    ensures IsWord(key, 6, 2, Col(0xc8, 0x10, 0xf3, 0x2b))
    ensures IsWord(key, 6, 3, Col(0x80, 0x90, 0x79, 0xe5))
    ensures IsWord(key, 6, 4, Col(0x62, 0xf8, 0xea, 0xd2))
    ensures IsWord(key, 6, 5, Col(0x52, 0x2c, 0x6b, 0x7b))
  {
    FirstWord(key, 6, 0);
    FirstWord(key, 6, 1);
    FirstWord(key, 6, 2);
    FirstWord(key, 6, 3);
    FirstWord(key, 6, 4);
    FirstWord(key, 6, 5);
  }

  lemma Key192At6(key: seq<bv8>)
    requires IsKey192(key)
    ensures IsWord(key, 6, 6, Col(0xfe, 0x0c, 0x91, 0xf7))
    ensures IsWord(key, 6, 7, Col(0x24, 0x02, 0xf5, 0xa5))
    ensures IsWord(key, 6, 8, Col(0xec, 0x12, 0x06, 0x8e))
    ensures IsWord(key, 6, 9, Col(0x6c, 0x82, 0x7f, 0x6b))
    ensures IsWord(key, 6, 10, Col(0x0e, 0x7a, 0x95, 0xb9))
    ensures IsWord(key, 6, 11, Col(0x5c, 0x56, 0xfe, 0xc2))
  {
    hide IsWord, SBox, Rcon, IsKey192;
    Key192At0(key);
    RconValues();
    Row2(); Row5(); Row6(); Row7();
    Rotated(key, 6, 6, 0, Col(0x8e, 0x73, 0xb0, 0xf7), Col(0x52, 0x2c, 0x6b, 0x7b));
    Plain(key, 6, 7, Col(0xda, 0x0e, 0x64, 0x52), Col(0xfe, 0x0c, 0x91, 0xf7));
    Plain(key, 6, 8, Col(0xc8, 0x10, 0xf3, 0x2b), Col(0x24, 0x02, 0xf5, 0xa5));
    Plain(key, 6, 9, Col(0x80, 0x90, 0x79, 0xe5), Col(0xec, 0x12, 0x06, 0x8e));
    Plain(key, 6, 10, Col(0x62, 0xf8, 0xea, 0xd2), Col(0x6c, 0x82, 0x7f, 0x6b));
    Plain(key, 6, 11, Col(0x52, 0x2c, 0x6b, 0x7b), Col(0x0e, 0x7a, 0x95, 0xb9));
  }

  lemma Key192At12(key: seq<bv8>)
    requires IsKey192(key)
    ensures IsWord(key, 6, 12, Col(0x4d, 0xb7, 0xb4, 0xbd))
    ensures IsWord(key, 6, 13, Col(0x69, 0xb5, 0x41, 0x18))
    ensures IsWord(key, 6, 14, Col(0x85, 0xa7, 0x47, 0x96))
    ensures IsWord(key, 6, 15, Col(0xe9, 0x25, 0x38, 0xfd))
    ensures IsWord(key, 6, 16, Col(0xe7, 0x5f, 0xad, 0x44))
    ensures IsWord(key, 6, 17, Col(0xbb, 0x09, 0x53, 0x86))
  {
    hide IsWord, SBox, Rcon, IsKey192;
    Key192At6(key);
    RconValues();
    Row5(); Rowc(); Rowf();
    Rotated(key, 6, 12, 1, Col(0xfe, 0x0c, 0x91, 0xf7), Col(0x5c, 0x56, 0xfe, 0xc2));
    Plain(key, 6, 13, Col(0x24, 0x02, 0xf5, 0xa5), Col(0x4d, 0xb7, 0xb4, 0xbd));
    Plain(key, 6, 14, Col(0xec, 0x12, 0x06, 0x8e), Col(0x69, 0xb5, 0x41, 0x18));
    Plain(key, 6, 15, Col(0x6c, 0x82, 0x7f, 0x6b), Col(0x85, 0xa7, 0x47, 0x96));
    Plain(key, 6, 16, Col(0x0e, 0x7a, 0x95, 0xb9), Col(0xe9, 0x25, 0x38, 0xfd));
    Plain(key, 6, 17, Col(0x5c, 0x56, 0xfe, 0xc2), Col(0xe7, 0x5f, 0xad, 0x44));
  }

  lemma Key192At18(key: seq<bv8>)
    requires IsKey192(key)
    ensures IsWord(key, 6, 18, Col(0x48, 0x5a, 0xf0, 0x57))
    ensures IsWord(key, 6, 19, Col(0x21, 0xef, 0xb1, 0x4f))
    ensures IsWord(key, 6, 20, Col(0xa4, 0x48, 0xf6, 0xd9))
    ensures IsWord(key, 6, 21, Col(0x4d, 0x6d, 0xce, 0x24))
    ensures IsWord(key, 6, 22, Col(0xaa, 0x32, 0x63, 0x60))
    ensures IsWord(key, 6, 23, Col(0x11, 0x3b, 0x30, 0xe6))
  {
    hide IsWord, SBox, Rcon, IsKey192;
    Key192At12(key);
    RconValues();
    Row0(); Row5(); Row8(); Rowb();
    Rotated(key, 6, 18, 2, Col(0x4d, 0xb7, 0xb4, 0xbd), Col(0xbb, 0x09, 0x53, 0x86));
    Plain(key, 6, 19, Col(0x69, 0xb5, 0x41, 0x18), Col(0x48, 0x5a, 0xf0, 0x57));
    Plain(key, 6, 20, Col(0x85, 0xa7, 0x47, 0x96), Col(0x21, 0xef, 0xb1, 0x4f));
    Plain(key, 6, 21, Col(0xe9, 0x25, 0x38, 0xfd), Col(0xa4, 0x48, 0xf6, 0xd9));
    Plain(key, 6, 22, Col(0xe7, 0x5f, 0xad, 0x44), Col(0x4d, 0x6d, 0xce, 0x24));
    Plain(key, 6, 23, Col(0xbb, 0x09, 0x53, 0x86), Col(0xaa, 0x32, 0x63, 0x60));
  }

  lemma Key192At24(key: seq<bv8>)
    requires IsKey192(key)
    ensures IsWord(key, 6, 24, Col(0xa2, 0x5e, 0x7e, 0xd5))
    ensures IsWord(key, 6, 25, Col(0x83, 0xb1, 0xcf, 0x9a))
    ensures IsWord(key, 6, 26, Col(0x27, 0xf9, 0x39, 0x43))
    ensures IsWord(key, 6, 27, Col(0x6a, 0x94, 0xf7, 0x67))
    ensures IsWord(key, 6, 28, Col(0xc0, 0xa6, 0x94, 0x07))
    ensures IsWord(key, 6, 29, Col(0xd1, 0x9d, 0xa4, 0xe1))
  {
    hide IsWord, SBox, Rcon, IsKey192;
    Key192At18(key);
    RconValues();
    Row1(); Row3(); Rowe();
    Rotated(key, 6, 24, 3, Col(0x48, 0x5a, 0xf0, 0x57), Col(0x11, 0x3b, 0x30, 0xe6));
    Plain(key, 6, 25, Col(0x21, 0xef, 0xb1, 0x4f), Col(0xa2, 0x5e, 0x7e, 0xd5));
    Plain(key, 6, 26, Col(0xa4, 0x48, 0xf6, 0xd9), Col(0x83, 0xb1, 0xcf, 0x9a));
    Plain(key, 6, 27, Col(0x4d, 0x6d, 0xce, 0x24), Col(0x27, 0xf9, 0x39, 0x43));
    Plain(key, 6, 28, Col(0xaa, 0x32, 0x63, 0x60), Col(0x6a, 0x94, 0xf7, 0x67));
    Plain(key, 6, 29, Col(0x11, 0x3b, 0x30, 0xe6), Col(0xc0, 0xa6, 0x94, 0x07));
  }

  lemma Key192At30(key: seq<bv8>)
    requires IsKey192(key)
    ensures IsWord(key, 6, 30, Col(0xec, 0x17, 0x86, 0xeb))
    ensures IsWord(key, 6, 31, Col(0x6f, 0xa6, 0x49, 0x71))
    ensures IsWord(key, 6, 32, Col(0x48, 0x5f, 0x70, 0x32))
    ensures IsWord(key, 6, 33, Col(0x22, 0xcb, 0x87, 0x55))
    ensures IsWord(key, 6, 34, Col(0xe2, 0x6d, 0x13, 0x52))
    ensures IsWord(key, 6, 35, Col(0x33, 0xf0, 0xb7, 0xb3))
  {
    hide IsWord, SBox, Rcon, IsKey192;
    Key192At24(key);
    RconValues();
    Row9(); Rowa(); Rowd(); Rowe();
    Rotated(key, 6, 30, 4, Col(0xa2, 0x5e, 0x7e, 0xd5), Col(0xd1, 0x9d, 0xa4, 0xe1));
    Plain(key, 6, 31, Col(0x83, 0xb1, 0xcf, 0x9a), Col(0xec, 0x17, 0x86, 0xeb));
    Plain(key, 6, 32, Col(0x27, 0xf9, 0x39, 0x43), Col(0x6f, 0xa6, 0x49, 0x71));
    Plain(key, 6, 33, Col(0x6a, 0x94, 0xf7, 0x67), Col(0x48, 0x5f, 0x70, 0x32));
    Plain(key, 6, 34, Col(0xc0, 0xa6, 0x94, 0x07), Col(0x22, 0xcb, 0x87, 0x55));
    Plain(key, 6, 35, Col(0xd1, 0x9d, 0xa4, 0xe1), Col(0xe2, 0x6d, 0x13, 0x52));
  }

  lemma Key192At36(key: seq<bv8>)
    requires IsKey192(key)
    ensures IsWord(key, 6, 36, Col(0x40, 0xbe, 0xeb, 0x28))
    ensures IsWord(key, 6, 37, Col(0x2f, 0x18, 0xa2, 0x59))
    ensures IsWord(key, 6, 38, Col(0x67, 0x47, 0xd2, 0x6b))
    ensures IsWord(key, 6, 39, Col(0x45, 0x8c, 0x55, 0x3e))
    ensures IsWord(key, 6, 40, Col(0xa7, 0xe1, 0x46, 0x6c))
    ensures IsWord(key, 6, 41, Col(0x94, 0x11, 0xf1, 0xdf))
  {
    hide IsWord, SBox, Rcon, IsKey192;
    Key192At30(key);
    RconValues();
    Row3(); Rowb(); Rowf();
    Rotated(key, 6, 36, 5, Col(0xec, 0x17, 0x86, 0xeb), Col(0x33, 0xf0, 0xb7, 0xb3));
    Plain(key, 6, 37, Col(0x6f, 0xa6, 0x49, 0x71), Col(0x40, 0xbe, 0xeb, 0x28));
    Plain(key, 6, 38, Col(0x48, 0x5f, 0x70, 0x32), Col(0x2f, 0x18, 0xa2, 0x59));
    Plain(key, 6, 39, Col(0x22, 0xcb, 0x87, 0x55), Col(0x67, 0x47, 0xd2, 0x6b));
    Plain(key, 6, 40, Col(0xe2, 0x6d, 0x13, 0x52), Col(0x45, 0x8c, 0x55, 0x3e));
    Plain(key, 6, 41, Col(0x33, 0xf0, 0xb7, 0xb3), Col(0xa7, 0xe1, 0x46, 0x6c));
  }

  lemma Key192At42(key: seq<bv8>)
    requires IsKey192(key)
    ensures IsWord(key, 6, 42, Col(0x82, 0x1f, 0x75, 0x0a))
    ensures IsWord(key, 6, 43, Col(0xad, 0x07, 0xd7, 0x53))
    ensures IsWord(key, 6, 44, Col(0xca, 0x40, 0x05, 0x38))
    ensures IsWord(key, 6, 45, Col(0x8f, 0xcc, 0x50, 0x06))
    ensures IsWord(key, 6, 46, Col(0x28, 0x2d, 0x16, 0x6a))
    ensures IsWord(key, 6, 47, Col(0xbc, 0x3c, 0xe7, 0xb5))
  {
    hide IsWord, SBox, Rcon, IsKey192;
    Key192At36(key);
    RconValues();
    Row1(); Row9(); Rowd(); Rowf();
    Rotated(key, 6, 42, 6, Col(0x40, 0xbe, 0xeb, 0x28), Col(0x94, 0x11, 0xf1, 0xdf));
    Plain(key, 6, 43, Col(0x2f, 0x18, 0xa2, 0x59), Col(0x82, 0x1f, 0x75, 0x0a));
    Plain(key, 6, 44, Col(0x67, 0x47, 0xd2, 0x6b), Col(0xad, 0x07, 0xd7, 0x53));
    Plain(key, 6, 45, Col(0x45, 0x8c, 0x55, 0x3e), Col(0xca, 0x40, 0x05, 0x38));
    Plain(key, 6, 46, Col(0xa7, 0xe1, 0x46, 0x6c), Col(0x8f, 0xcc, 0x50, 0x06));
    Plain(key, 6, 47, Col(0x94, 0x11, 0xf1, 0xdf), Col(0x28, 0x2d, 0x16, 0x6a));
  }

  lemma Key192At48(key: seq<bv8>)
    requires IsKey192(key)
    ensures IsWord(key, 6, 48, Col(0xe9, 0x8b, 0xa0, 0x6f))
    ensures IsWord(key, 6, 49, Col(0x44, 0x8c, 0x77, 0x3c))
    ensures IsWord(key, 6, 50, Col(0x8e, 0xcc, 0x72, 0x04))
    ensures IsWord(key, 6, 51, Col(0x01, 0x00, 0x22, 0x02))
  {
    hide IsWord, SBox, Rcon, IsKey192;
    Key192At42(key);
    RconValues();
    Row3(); Rowb(); Rowe();
    Rotated(key, 6, 48, 7, Col(0x82, 0x1f, 0x75, 0x0a), Col(0xbc, 0x3c, 0xe7, 0xb5));
    Plain(key, 6, 49, Col(0xad, 0x07, 0xd7, 0x53), Col(0xe9, 0x8b, 0xa0, 0x6f));
    Plain(key, 6, 50, Col(0xca, 0x40, 0x05, 0x38), Col(0x44, 0x8c, 0x77, 0x3c));
    Plain(key, 6, 51, Col(0x8f, 0xcc, 0x50, 0x06), Col(0x8e, 0xcc, 0x72, 0x04));
  }

  /** The last round key. */
  lemma Key192Last()
    ensures RoundKeys(Key192(), 6)[12] == State(Col(0xe9, 0x8b, 0xa0, 0x6f), Col(0x44, 0x8c, 0x77, 0x3c),
                                                Col(0x8e, 0xcc, 0x72, 0x04), Col(0x01, 0x00, 0x22, 0x02))
  {
    hide Expanded, Key192;
    Key192Is();
    Key192At48(Key192());
  }

  function Key256(): (key: seq<bv8>)
    ensures |key| == 32
  {
    [0x60, 0x3d, 0xeb, 0x10, 0x15, 0xca, 0x71, 0xbe, 0x2b, 0x73, 0xae, 0xf0, 0x85, 0x7d, 0x77, 0x81]
    + [0x1f, 0x35, 0x2c, 0x07, 0x3b, 0x61, 0x08, 0xd7, 0x2d, 0x98, 0x10, 0xa3, 0x09, 0x14, 0xdf, 0xf4]
  }

  /** The words of this key. */
  predicate IsKey256(key: seq<bv8>) {
    && |key| == 32
    && KeyColumn(key, 0) == Col(0x60, 0x3d, 0xeb, 0x10) && KeyColumn(key, 1) == Col(0x15, 0xca, 0x71, 0xbe)
    && KeyColumn(key, 2) == Col(0x2b, 0x73, 0xae, 0xf0) && KeyColumn(key, 3) == Col(0x85, 0x7d, 0x77, 0x81)
    && KeyColumn(key, 4) == Col(0x1f, 0x35, 0x2c, 0x07) && KeyColumn(key, 5) == Col(0x3b, 0x61, 0x08, 0xd7)
    && KeyColumn(key, 6) == Col(0x2d, 0x98, 0x10, 0xa3) && KeyColumn(key, 7) == Col(0x09, 0x14, 0xdf, 0xf4)
  }

  lemma Key256Is() ensures IsKey256(Key256()) {}

  lemma Key256At0(key: seq<bv8>)
    requires IsKey256(key)
    ensures IsWord(key, 8, 0, Col(0x60, 0x3d, 0xeb, 0x10))
    ensures IsWord(key, 8, 1, Col(0x15, 0xca, 0x71, 0xbe))
    ensures IsWord(key, 8, 2, Col(0x2b, 0x73, 0xae, 0xf0))
    ensures IsWord(key, 8, 3, Col(0x85, 0x7d, 0x77, 0x81))
    ensures IsWord(key, 8, 4, Col(0x1f, 0x35, 0x2c, 0x07))
    ensures IsWord(key, 8, 5, Col(0x3b, 0x61, 0x08, 0xd7))
    ensures IsWord(key, 8, 6, Col(0x2d, 0x98, 0x10, 0xa3))
    ensures IsWord(key, 8, 7, Col(0x09, 0x14, 0xdf, 0xf4))
  {
    FirstWord(key, 8, 0);
    FirstWord(key, 8, 1);
    FirstWord(key, 8, 2);
    FirstWord(key, 8, 3);
    FirstWord(key, 8, 4);
    FirstWord(key, 8, 5);
    FirstWord(key, 8, 6);
    FirstWord(key, 8, 7);
  }

  lemma Key256At8(key: seq<bv8>)
    requires IsKey256(key)
    ensures IsWord(key, 8, 8, Col(0x9b, 0xa3, 0x54, 0x11))
    ensures IsWord(key, 8, 9, Col(0x8e, 0x69, 0x25, 0xaf))
    ensures IsWord(key, 8, 10, Col(0xa5, 0x1a, 0x8b, 0x5f))
    ensures IsWord(key, 8, 11, Col(0x20, 0x67, 0xfc, 0xde))
    ensures IsWord(key, 8, 12, Col(0xa8, 0xb0, 0x9c, 0x1a))
    ensures IsWord(key, 8, 13, Col(0x93, 0xd1, 0x94, 0xcd))
    ensures IsWord(key, 8, 14, Col(0xbe, 0x49, 0x84, 0x6e))
    ensures IsWord(key, 8, 15, Col(0xb7, 0x5d, 0x5b, 0x9a))
  {
    hide IsWord, SBox, Rcon, IsKey256;
    Key256At0(key);
    RconValues();
    Row0(); Row1(); Row2(); Row6(); Rowd(); Rowf();
    Rotated(key, 8, 8, 0, Col(0x60, 0x3d, 0xeb, 0x10), Col(0x09, 0x14, 0xdf, 0xf4));
    Plain(key, 8, 9, Col(0x15, 0xca, 0x71, 0xbe), Col(0x9b, 0xa3, 0x54, 0x11));
    Plain(key, 8, 10, Col(0x2b, 0x73, 0xae, 0xf0), Col(0x8e, 0x69, 0x25, 0xaf));
    Plain(key, 8, 11, Col(0x85, 0x7d, 0x77, 0x81), Col(0xa5, 0x1a, 0x8b, 0x5f));
    Substituted(key, 8, 12, Col(0x1f, 0x35, 0x2c, 0x07), Col(0x20, 0x67, 0xfc, 0xde));
    Plain(key, 8, 13, Col(0x3b, 0x61, 0x08, 0xd7), Col(0xa8, 0xb0, 0x9c, 0x1a));
    Plain(key, 8, 14, Col(0x2d, 0x98, 0x10, 0xa3), Col(0x93, 0xd1, 0x94, 0xcd));
    Plain(key, 8, 15, Col(0x09, 0x14, 0xdf, 0xf4), Col(0xbe, 0x49, 0x84, 0x6e));
  }

  lemma Key256At16(key: seq<bv8>)
    requires IsKey256(key)
    ensures IsWord(key, 8, 16, Col(0xd5, 0x9a, 0xec, 0xb8))
    ensures IsWord(key, 8, 17, Col(0x5b, 0xf3, 0xc9, 0x17))
    ensures IsWord(key, 8, 18, Col(0xfe, 0xe9, 0x42, 0x48))
    ensures IsWord(key, 8, 19, Col(0xde, 0x8e, 0xbe, 0x96))
    ensures IsWord(key, 8, 20, Col(0xb5, 0xa9, 0x32, 0x8a))
    ensures IsWord(key, 8, 21, Col(0x26, 0x78, 0xa6, 0x47))
    ensures IsWord(key, 8, 22, Col(0x98, 0x31, 0x22, 0x29))
    ensures IsWord(key, 8, 23, Col(0x2f, 0x6c, 0x79, 0xb3))
  {
    hide IsWord, SBox, Rcon, IsKey256;
    Key256At8(key);
    RconValues();
    Row5(); Row8(); Row9(); Rowb(); Rowd();
    Rotated(key, 8, 16, 1, Col(0x9b, 0xa3, 0x54, 0x11), Col(0xb7, 0x5d, 0x5b, 0x9a));
    Plain(key, 8, 17, Col(0x8e, 0x69, 0x25, 0xaf), Col(0xd5, 0x9a, 0xec, 0xb8));
    Plain(key, 8, 18, Col(0xa5, 0x1a, 0x8b, 0x5f), Col(0x5b, 0xf3, 0xc9, 0x17));
    Plain(key, 8, 19, Col(0x20, 0x67, 0xfc, 0xde), Col(0xfe, 0xe9, 0x42, 0x48));
    Substituted(key, 8, 20, Col(0xa8, 0xb0, 0x9c, 0x1a), Col(0xde, 0x8e, 0xbe, 0x96));
    Plain(key, 8, 21, Col(0x93, 0xd1, 0x94, 0xcd), Col(0xb5, 0xa9, 0x32, 0x8a));
    Plain(key, 8, 22, Col(0xbe, 0x49, 0x84, 0x6e), Col(0x26, 0x78, 0xa6, 0x47));
    Plain(key, 8, 23, Col(0xb7, 0x5d, 0x5b, 0x9a), Col(0x98, 0x31, 0x22, 0x29));
  }

  lemma Key256At24(key: seq<bv8>)
    requires IsKey256(key)
    ensures IsWord(key, 8, 24, Col(0x81, 0x2c, 0x81, 0xad))
    ensures IsWord(key, 8, 25, Col(0xda, 0xdf, 0x48, 0xba))
    ensures IsWord(key, 8, 26, Col(0x24, 0x36, 0x0a, 0xf2))
    ensures IsWord(key, 8, 27, Col(0xfa, 0xb8, 0xb4, 0x64))
    ensures IsWord(key, 8, 28, Col(0x98, 0xc5, 0xbf, 0xc9))
    ensures IsWord(key, 8, 29, Col(0xbe, 0xbd, 0x19, 0x8e))
    ensures IsWord(key, 8, 30, Col(0x26, 0x8c, 0x3b, 0xa7))
    ensures IsWord(key, 8, 31, Col(0x09, 0xe0, 0x42, 0x14))
  {
    hide IsWord, SBox, Rcon, IsKey256;
    Key256At16(key);
    RconValues();
    Row2(); Row6(); Row7(); Rowb(); Rowf();
    Rotated(key, 8, 24, 2, Col(0xd5, 0x9a, 0xec, 0xb8), Col(0x2f, 0x6c, 0x79, 0xb3));
    Plain(key, 8, 25, Col(0x5b, 0xf3, 0xc9, 0x17), Col(0x81, 0x2c, 0x81, 0xad));
    Plain(key, 8, 26, Col(0xfe, 0xe9, 0x42, 0x48), Col(0xda, 0xdf, 0x48, 0xba));
    Plain(key, 8, 27, Col(0xde, 0x8e, 0xbe, 0x96), Col(0x24, 0x36, 0x0a, 0xf2));
    Substituted(key, 8, 28, Col(0xb5, 0xa9, 0x32, 0x8a), Col(0xfa, 0xb8, 0xb4, 0x64));
    Plain(key, 8, 29, Col(0x26, 0x78, 0xa6, 0x47), Col(0x98, 0xc5, 0xbf, 0xc9));
    Plain(key, 8, 30, Col(0x98, 0x31, 0x22, 0x29), Col(0xbe, 0xbd, 0x19, 0x8e));
    Plain(key, 8, 31, Col(0x2f, 0x6c, 0x79, 0xb3), Col(0x26, 0x8c, 0x3b, 0xa7));
  }

  lemma Key256At32(key: seq<bv8>)
    requires IsKey256(key)
    ensures IsWord(key, 8, 32, Col(0x68, 0x00, 0x7b, 0xac))
    ensures IsWord(key, 8, 33, Col(0xb2, 0xdf, 0x33, 0x16))
    ensures IsWord(key, 8, 34, Col(0x96, 0xe9, 0x39, 0xe4))
    ensures IsWord(key, 8, 35, Col(0x6c, 0x51, 0x8d, 0x80))
    ensures IsWord(key, 8, 36, Col(0xc8, 0x14, 0xe2, 0x04))
    ensures IsWord(key, 8, 37, Col(0x76, 0xa9, 0xfb, 0x8a))
    ensures IsWord(key, 8, 38, Col(0x50, 0x25, 0xc0, 0x2d))
    ensures IsWord(key, 8, 39, Col(0x59, 0xc5, 0x82, 0x39))
  {
    hide IsWord, SBox, Rcon, IsKey256;
    Key256At24(key);
    RconValues();
    Row0(); Row1(); Row4(); Row5(); Row6(); Row8(); Rowe();
    Rotated(key, 8, 32, 3, Col(0x81, 0x2c, 0x81, 0xad), Col(0x09, 0xe0, 0x42, 0x14));
    Plain(key, 8, 33, Col(0xda, 0xdf, 0x48, 0xba), Col(0x68, 0x00, 0x7b, 0xac));
    Plain(key, 8, 34, Col(0x24, 0x36, 0x0a, 0xf2), Col(0xb2, 0xdf, 0x33, 0x16));
    Plain(key, 8, 35, Col(0xfa, 0xb8, 0xb4, 0x64), Col(0x96, 0xe9, 0x39, 0xe4));
    Substituted(key, 8, 36, Col(0x98, 0xc5, 0xbf, 0xc9), Col(0x6c, 0x51, 0x8d, 0x80));
    Plain(key, 8, 37, Col(0xbe, 0xbd, 0x19, 0x8e), Col(0xc8, 0x14, 0xe2, 0x04));
    Plain(key, 8, 38, Col(0x26, 0x8c, 0x3b, 0xa7), Col(0x76, 0xa9, 0xfb, 0x8a));
    Plain(key, 8, 39, Col(0x09, 0xe0, 0x42, 0x14), Col(0x50, 0x25, 0xc0, 0x2d));
  }

  lemma Key256At40(key: seq<bv8>)
    requires IsKey256(key)
    ensures IsWord(key, 8, 40, Col(0xde, 0x13, 0x69, 0x67))
    ensures IsWord(key, 8, 41, Col(0x6c, 0xcc, 0x5a, 0x71))
    ensures IsWord(key, 8, 42, Col(0xfa, 0x25, 0x63, 0x95))
    ensures IsWord(key, 8, 43, Col(0x96, 0x74, 0xee, 0x15))
    ensures IsWord(key, 8, 44, Col(0x58, 0x86, 0xca, 0x5d))
    ensures IsWord(key, 8, 45, Col(0x2e, 0x2f, 0x31, 0xd7))
    ensures IsWord(key, 8, 46, Col(0x7e, 0x0a, 0xf1, 0xfa))
    ensures IsWord(key, 8, 47, Col(0x27, 0xcf, 0x73, 0xc3))
  {
    hide IsWord, SBox, Rcon, IsKey256;
    Key256At32(key);
    RconValues();
    Row1(); Row3(); Row5(); Row7(); Row8(); Row9(); Rowc(); Rowe();
    Rotated(key, 8, 40, 4, Col(0x68, 0x00, 0x7b, 0xac), Col(0x59, 0xc5, 0x82, 0x39));
    Plain(key, 8, 41, Col(0xb2, 0xdf, 0x33, 0x16), Col(0xde, 0x13, 0x69, 0x67));
    Plain(key, 8, 42, Col(0x96, 0xe9, 0x39, 0xe4), Col(0x6c, 0xcc, 0x5a, 0x71));
    Plain(key, 8, 43, Col(0x6c, 0x51, 0x8d, 0x80), Col(0xfa, 0x25, 0x63, 0x95));
    Substituted(key, 8, 44, Col(0xc8, 0x14, 0xe2, 0x04), Col(0x96, 0x74, 0xee, 0x15));
    Plain(key, 8, 45, Col(0x76, 0xa9, 0xfb, 0x8a), Col(0x58, 0x86, 0xca, 0x5d));
    Plain(key, 8, 46, Col(0x50, 0x25, 0xc0, 0x2d), Col(0x2e, 0x2f, 0x31, 0xd7));
    Plain(key, 8, 47, Col(0x59, 0xc5, 0x82, 0x39), Col(0x7e, 0x0a, 0xf1, 0xfa));
  }

  lemma Key256At48(key: seq<bv8>)
    requires IsKey256(key)
    ensures IsWord(key, 8, 48, Col(0x74, 0x9c, 0x47, 0xab))
    ensures IsWord(key, 8, 49, Col(0x18, 0x50, 0x1d, 0xda))
    ensures IsWord(key, 8, 50, Col(0xe2, 0x75, 0x7e, 0x4f))
    ensures IsWord(key, 8, 51, Col(0x74, 0x01, 0x90, 0x5a))
    ensures IsWord(key, 8, 52, Col(0xca, 0xfa, 0xaa, 0xe3))
    ensures IsWord(key, 8, 53, Col(0xe4, 0xd5, 0x9b, 0x34))
    ensures IsWord(key, 8, 54, Col(0x9a, 0xdf, 0x6a, 0xce))
    ensures IsWord(key, 8, 55, Col(0xbd, 0x10, 0x19, 0x0d))
  {
    hide IsWord, SBox, Rcon, IsKey256;
    Key256At40(key);
    RconValues();
    Row0(); Row2(); Row5(); Row7(); Row9(); Rowc();
    Rotated(key, 8, 48, 5, Col(0xde, 0x13, 0x69, 0x67), Col(0x27, 0xcf, 0x73, 0xc3));
    Plain(key, 8, 49, Col(0x6c, 0xcc, 0x5a, 0x71), Col(0x74, 0x9c, 0x47, 0xab));
    Plain(key, 8, 50, Col(0xfa, 0x25, 0x63, 0x95), Col(0x18, 0x50, 0x1d, 0xda));
    Plain(key, 8, 51, Col(0x96, 0x74, 0xee, 0x15), Col(0xe2, 0x75, 0x7e, 0x4f));
    Substituted(key, 8, 52, Col(0x58, 0x86, 0xca, 0x5d), Col(0x74, 0x01, 0x90, 0x5a));
    Plain(key, 8, 53, Col(0x2e, 0x2f, 0x31, 0xd7), Col(0xca, 0xfa, 0xaa, 0xe3));
    Plain(key, 8, 54, Col(0x7e, 0x0a, 0xf1, 0xfa), Col(0xe4, 0xd5, 0x9b, 0x34));
    Plain(key, 8, 55, Col(0x27, 0xcf, 0x73, 0xc3), Col(0x9a, 0xdf, 0x6a, 0xce));
  }

  lemma Key256At56(key: seq<bv8>)
    requires IsKey256(key)
    ensures IsWord(key, 8, 56, Col(0xfe, 0x48, 0x90, 0xd1))
    ensures IsWord(key, 8, 57, Col(0xe6, 0x18, 0x8d, 0x0b))
    ensures IsWord(key, 8, 58, Col(0x04, 0x6d, 0xf3, 0x44))
    ensures IsWord(key, 8, 59, Col(0x70, 0x6c, 0x63, 0x1e))
  {
    hide IsWord, SBox, Rcon, IsKey256;
    Key256At48(key);
    RconValues();
    Row0(); Row1(); Rowb();
    Rotated(key, 8, 56, 6, Col(0x74, 0x9c, 0x47, 0xab), Col(0xbd, 0x10, 0x19, 0x0d));
    Plain(key, 8, 57, Col(0x18, 0x50, 0x1d, 0xda), Col(0xfe, 0x48, 0x90, 0xd1));
    Plain(key, 8, 58, Col(0xe2, 0x75, 0x7e, 0x4f), Col(0xe6, 0x18, 0x8d, 0x0b));
    Plain(key, 8, 59, Col(0x74, 0x01, 0x90, 0x5a), Col(0x04, 0x6d, 0xf3, 0x44));
  }

  /** The last round key. */
  lemma Key256Last()
    ensures RoundKeys(Key256(), 8)[14] == State(Col(0xfe, 0x48, 0x90, 0xd1), Col(0xe6, 0x18, 0x8d, 0x0b),
                                                Col(0x04, 0x6d, 0xf3, 0x44), Col(0x70, 0x6c, 0x63, 0x1e))
  {
    hide Expanded, Key256;
    Key256Is();
    Key256At56(Key256());
  }
}
