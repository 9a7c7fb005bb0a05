/** The S-box of FIPS 197 as the table of its Figure 7. */
module AesSboxTable {
  import opened AesField
  import opened AesSbox

  /** The product without the recursion. */
  function Product(x: bv8, y: bv8): bv8 {
    var x1 := XTime(x); var x2 := XTime(x1); var x3 := XTime(x2);
    var x4 := XTime(x3); var x5 := XTime(x4); var x6 := XTime(x5); var x7 := XTime(x6);
    Add(LowBitTimes(y, x), Add(LowBitTimes(y >> 1, x1), Add(LowBitTimes(y >> 2, x2),
    Add(LowBitTimes(y >> 3, x3), Add(LowBitTimes(y >> 4, x4), Add(LowBitTimes(y >> 5, x5),
    Add(LowBitTimes(y >> 6, x6), LowBitTimes(y >> 7, x7))))))))
  }

  lemma ProductIsMul(x: bv8, y: bv8)
    ensures Product(x, y) == Mul(x, y)
  {
    Halves(y);
    hide XTime, LowBitTimes, Half, Add;
    AddLaws(LowBitTimes(y >> 7, XTime(XTime(XTime(XTime(XTime(XTime(XTime(x)))))))), 0, 0);
    var x4, y4 := XTime(XTime(XTime(XTime(x)))), Half(Half(Half(Half(y))));
    assert MulBits(XTime(XTime(x4)), Half(Half(y4)), 2)
        == Add(LowBitTimes(y >> 6, XTime(XTime(x4))), LowBitTimes(y >> 7, XTime(XTime(XTime(x4)))));
    assert MulBits(x4, y4, 4)
        == Add(LowBitTimes(y >> 4, x4),
               Add(LowBitTimes(y >> 5, XTime(x4)), MulBits(XTime(XTime(x4)), Half(Half(y4)), 2)));
  }

  lemma Halves(y: bv8)
    ensures Half(y) == y >> 1 && Half(y >> 1) == y >> 2 && Half(y >> 2) == y >> 3 && Half(y >> 3) == y >> 4
    ensures Half(y >> 4) == y >> 5 && Half(y >> 5) == y >> 6 && Half(y >> 6) == y >> 7
  {}

  /** y is the inverse of x, and s what the affine map makes of it. */
  lemma Entry(x: bv8, y: bv8, s: bv8)
    requires Product(x, y) == 1 && Affine(y) == s
    ensures SBox(x) == s
  {
    hide Mul, Product, Affine;
    ProductIsMul(x, y);
    InverseUnique(x, y);
  }

  lemma EntryOfZero()
    ensures SBox(0) == 0x63
  {
    assert Affine(0) == 0x63;
  }

  lemma Row0()
    ensures SBox(0x00) == 0x63 && SBox(0x01) == 0x7c && SBox(0x02) == 0x77 && SBox(0x03) == 0x7b
    ensures SBox(0x04) == 0xf2 && SBox(0x05) == 0x6b && SBox(0x06) == 0x6f && SBox(0x07) == 0xc5
    ensures SBox(0x08) == 0x30 && SBox(0x09) == 0x01 && SBox(0x0a) == 0x67 && SBox(0x0b) == 0x2b
    ensures SBox(0x0c) == 0xfe && SBox(0x0d) == 0xd7 && SBox(0x0e) == 0xab && SBox(0x0f) == 0x76
  {
    hide SBox;
    EntryOfZero(); Entry(0x01, 0x01, 0x7c); Entry(0x02, 0x8d, 0x77); Entry(0x03, 0xf6, 0x7b);
    Entry(0x04, 0xcb, 0xf2); Entry(0x05, 0x52, 0x6b); Entry(0x06, 0x7b, 0x6f); Entry(0x07, 0xd1, 0xc5);
    Entry(0x08, 0xe8, 0x30); Entry(0x09, 0x4f, 0x01); Entry(0x0a, 0x29, 0x67); Entry(0x0b, 0xc0, 0x2b);
    Entry(0x0c, 0xb0, 0xfe); Entry(0x0d, 0xe1, 0xd7); Entry(0x0e, 0xe5, 0xab); Entry(0x0f, 0xc7, 0x76);
  }

  lemma Row1()
    ensures SBox(0x10) == 0xca && SBox(0x11) == 0x82 && SBox(0x12) == 0xc9 && SBox(0x13) == 0x7d
    ensures SBox(0x14) == 0xfa && SBox(0x15) == 0x59 && SBox(0x16) == 0x47 && SBox(0x17) == 0xf0
    ensures SBox(0x18) == 0xad && SBox(0x19) == 0xd4 && SBox(0x1a) == 0xa2 && SBox(0x1b) == 0xaf
    ensures SBox(0x1c) == 0x9c && SBox(0x1d) == 0xa4 && SBox(0x1e) == 0x72 && SBox(0x1f) == 0xc0
  {
    hide SBox;
    Entry(0x10, 0x74, 0xca); Entry(0x11, 0xb4, 0x82); Entry(0x12, 0xaa, 0xc9); Entry(0x13, 0x4b, 0x7d);
    Entry(0x14, 0x99, 0xfa); Entry(0x15, 0x2b, 0x59); Entry(0x16, 0x60, 0x47); Entry(0x17, 0x5f, 0xf0);
    Entry(0x18, 0x58, 0xad); Entry(0x19, 0x3f, 0xd4); Entry(0x1a, 0xfd, 0xa2); Entry(0x1b, 0xcc, 0xaf);
    Entry(0x1c, 0xff, 0x9c); Entry(0x1d, 0x40, 0xa4); Entry(0x1e, 0xee, 0x72); Entry(0x1f, 0xb2, 0xc0);
  }

  lemma Row2()
    ensures SBox(0x20) == 0xb7 && SBox(0x21) == 0xfd && SBox(0x22) == 0x93 && SBox(0x23) == 0x26
    ensures SBox(0x24) == 0x36 && SBox(0x25) == 0x3f && SBox(0x26) == 0xf7 && SBox(0x27) == 0xcc
    ensures SBox(0x28) == 0x34 && SBox(0x29) == 0xa5 && SBox(0x2a) == 0xe5 && SBox(0x2b) == 0xf1
    ensures SBox(0x2c) == 0x71 && SBox(0x2d) == 0xd8 && SBox(0x2e) == 0x31 && SBox(0x2f) == 0x15
  {
    hide SBox;
    Entry(0x20, 0x3a, 0xb7); Entry(0x21, 0x6e, 0xfd); Entry(0x22, 0x5a, 0x93); Entry(0x23, 0xf1, 0x26);
    Entry(0x24, 0x55, 0x36); Entry(0x25, 0x4d, 0x3f); Entry(0x26, 0xa8, 0xf7); Entry(0x27, 0xc9, 0xcc);
    Entry(0x28, 0xc1, 0x34); Entry(0x29, 0x0a, 0xa5); Entry(0x2a, 0x98, 0xe5); Entry(0x2b, 0x15, 0xf1);
    Entry(0x2c, 0x30, 0x71); Entry(0x2d, 0x44, 0xd8); Entry(0x2e, 0xa2, 0x31); Entry(0x2f, 0xc2, 0x15);
  }

  lemma Row3()
    ensures SBox(0x30) == 0x04 && SBox(0x31) == 0xc7 && SBox(0x32) == 0x23 && SBox(0x33) == 0xc3
    ensures SBox(0x34) == 0x18 && SBox(0x35) == 0x96 && SBox(0x36) == 0x05 && SBox(0x37) == 0x9a
    ensures SBox(0x38) == 0x07 && SBox(0x39) == 0x12 && SBox(0x3a) == 0x80 && SBox(0x3b) == 0xe2
    ensures SBox(0x3c) == 0xeb && SBox(0x3d) == 0x27 && SBox(0x3e) == 0xb2 && SBox(0x3f) == 0x75
  {
    hide SBox;
    Entry(0x30, 0x2c, 0x04); Entry(0x31, 0x45, 0xc7); Entry(0x32, 0x92, 0x23); Entry(0x33, 0x6c, 0xc3);
    Entry(0x34, 0xf3, 0x18); Entry(0x35, 0x39, 0x96); Entry(0x36, 0x66, 0x05); Entry(0x37, 0x42, 0x9a);
    Entry(0x38, 0xf2, 0x07); Entry(0x39, 0x35, 0x12); Entry(0x3a, 0x20, 0x80); Entry(0x3b, 0x6f, 0xe2);
    Entry(0x3c, 0x77, 0xeb); Entry(0x3d, 0xbb, 0x27); Entry(0x3e, 0x59, 0xb2); Entry(0x3f, 0x19, 0x75);
  }

  lemma Row4()
    ensures SBox(0x40) == 0x09 && SBox(0x41) == 0x83 && SBox(0x42) == 0x2c && SBox(0x43) == 0x1a
    ensures SBox(0x44) == 0x1b && SBox(0x45) == 0x6e && SBox(0x46) == 0x5a && SBox(0x47) == 0xa0
    ensures SBox(0x48) == 0x52 && SBox(0x49) == 0x3b && SBox(0x4a) == 0xd6 && SBox(0x4b) == 0xb3
    ensures SBox(0x4c) == 0x29 && SBox(0x4d) == 0xe3 && SBox(0x4e) == 0x2f && SBox(0x4f) == 0x84
  {
    hide SBox;
    Entry(0x40, 0x1d, 0x09); Entry(0x41, 0xfe, 0x83); Entry(0x42, 0x37, 0x2c); Entry(0x43, 0x67, 0x1a);
    Entry(0x44, 0x2d, 0x1b); Entry(0x45, 0x31, 0x6e); Entry(0x46, 0xf5, 0x5a); Entry(0x47, 0x69, 0xa0);
    Entry(0x48, 0xa7, 0x52); Entry(0x49, 0x64, 0x3b); Entry(0x4a, 0xab, 0xd6); Entry(0x4b, 0x13, 0xb3);
    Entry(0x4c, 0x54, 0x29); Entry(0x4d, 0x25, 0xe3); Entry(0x4e, 0xe9, 0x2f); Entry(0x4f, 0x09, 0x84);
  }

  lemma Row5()
    ensures SBox(0x50) == 0x53 && SBox(0x51) == 0xd1 && SBox(0x52) == 0x00 && SBox(0x53) == 0xed
    ensures SBox(0x54) == 0x20 && SBox(0x55) == 0xfc && SBox(0x56) == 0xb1 && SBox(0x57) == 0x5b
    ensures SBox(0x58) == 0x6a && SBox(0x59) == 0xcb && SBox(0x5a) == 0xbe && SBox(0x5b) == 0x39
    ensures SBox(0x5c) == 0x4a && SBox(0x5d) == 0x4c && SBox(0x5e) == 0x58 && SBox(0x5f) == 0xcf
  {
    hide SBox;
    Entry(0x50, 0xed, 0x53); Entry(0x51, 0x5c, 0xd1); Entry(0x52, 0x05, 0x00); Entry(0x53, 0xca, 0xed);
    Entry(0x54, 0x4c, 0x20); Entry(0x55, 0x24, 0xfc); Entry(0x56, 0x87, 0xb1); Entry(0x57, 0xbf, 0x5b);
    Entry(0x58, 0x18, 0x6a); Entry(0x59, 0x3e, 0xcb); Entry(0x5a, 0x22, 0xbe); Entry(0x5b, 0xf0, 0x39);
    Entry(0x5c, 0x51, 0x4a); Entry(0x5d, 0xec, 0x4c); Entry(0x5e, 0x61, 0x58); Entry(0x5f, 0x17, 0xcf);
  }

  lemma Row6()
    ensures SBox(0x60) == 0xd0 && SBox(0x61) == 0xef && SBox(0x62) == 0xaa && SBox(0x63) == 0xfb
    ensures SBox(0x64) == 0x43 && SBox(0x65) == 0x4d && SBox(0x66) == 0x33 && SBox(0x67) == 0x85
    ensures SBox(0x68) == 0x45 && SBox(0x69) == 0xf9 && SBox(0x6a) == 0x02 && SBox(0x6b) == 0x7f
    ensures SBox(0x6c) == 0x50 && SBox(0x6d) == 0x3c && SBox(0x6e) == 0x9f && SBox(0x6f) == 0xa8
  {
    hide SBox;
    Entry(0x60, 0x16, 0xd0); Entry(0x61, 0x5e, 0xef); Entry(0x62, 0xaf, 0xaa); Entry(0x63, 0xd3, 0xfb);
    Entry(0x64, 0x49, 0x43); Entry(0x65, 0xa6, 0x4d); Entry(0x66, 0x36, 0x33); Entry(0x67, 0x43, 0x85);
    Entry(0x68, 0xf4, 0x45); Entry(0x69, 0x47, 0xf9); Entry(0x6a, 0x91, 0x02); Entry(0x6b, 0xdf, 0x7f);
    Entry(0x6c, 0x33, 0x50); Entry(0x6d, 0x93, 0x3c); Entry(0x6e, 0x21, 0x9f); Entry(0x6f, 0x3b, 0xa8);
  }

  lemma Row7()
    ensures SBox(0x70) == 0x51 && SBox(0x71) == 0xa3 && SBox(0x72) == 0x40 && SBox(0x73) == 0x8f
    ensures SBox(0x74) == 0x92 && SBox(0x75) == 0x9d && SBox(0x76) == 0x38 && SBox(0x77) == 0xf5
    ensures SBox(0x78) == 0xbc && SBox(0x79) == 0xb6 && SBox(0x7a) == 0xda && SBox(0x7b) == 0x21
    ensures SBox(0x7c) == 0x10 && SBox(0x7d) == 0xff && SBox(0x7e) == 0xf3 && SBox(0x7f) == 0xd2
  {
    hide SBox;
    Entry(0x70, 0x79, 0x51); Entry(0x71, 0xb7, 0xa3); Entry(0x72, 0x97, 0x40); Entry(0x73, 0x85, 0x8f);
    Entry(0x74, 0x10, 0x92); Entry(0x75, 0xb5, 0x9d); Entry(0x76, 0xba, 0x38); Entry(0x77, 0x3c, 0xf5);
    Entry(0x78, 0xb6, 0xbc); Entry(0x79, 0x70, 0xb6); Entry(0x7a, 0xd0, 0xda); Entry(0x7b, 0x06, 0x21);
    Entry(0x7c, 0xa1, 0x10); Entry(0x7d, 0xfa, 0xff); Entry(0x7e, 0x81, 0xf3); Entry(0x7f, 0x82, 0xd2);
  }

  lemma Row8()
    ensures SBox(0x80) == 0xcd && SBox(0x81) == 0x0c && SBox(0x82) == 0x13 && SBox(0x83) == 0xec
    ensures SBox(0x84) == 0x5f && SBox(0x85) == 0x97 && SBox(0x86) == 0x44 && SBox(0x87) == 0x17
    ensures SBox(0x88) == 0xc4 && SBox(0x89) == 0xa7 && SBox(0x8a) == 0x7e && SBox(0x8b) == 0x3d
    ensures SBox(0x8c) == 0x64 && SBox(0x8d) == 0x5d && SBox(0x8e) == 0x19 && SBox(0x8f) == 0x73
  {
    hide SBox;
    Entry(0x80, 0x83, 0xcd); Entry(0x81, 0x7e, 0x0c); Entry(0x82, 0x7f, 0x13); Entry(0x83, 0x80, 0xec);
    Entry(0x84, 0x96, 0x5f); Entry(0x85, 0x73, 0x97); Entry(0x86, 0xbe, 0x44); Entry(0x87, 0x56, 0x17);
    Entry(0x88, 0x9b, 0xc4); Entry(0x89, 0x9e, 0xa7); Entry(0x8a, 0x95, 0x7e); Entry(0x8b, 0xd9, 0x3d);
    Entry(0x8c, 0xf7, 0x64); Entry(0x8d, 0x02, 0x5d); Entry(0x8e, 0xb9, 0x19); Entry(0x8f, 0xa4, 0x73);
  }

  lemma Row9()
    ensures SBox(0x90) == 0x60 && SBox(0x91) == 0x81 && SBox(0x92) == 0x4f && SBox(0x93) == 0xdc
    ensures SBox(0x94) == 0x22 && SBox(0x95) == 0x2a && SBox(0x96) == 0x90 && SBox(0x97) == 0x88
    ensures SBox(0x98) == 0x46 && SBox(0x99) == 0xee && SBox(0x9a) == 0xb8 && SBox(0x9b) == 0x14
    ensures SBox(0x9c) == 0xde && SBox(0x9d) == 0x5e && SBox(0x9e) == 0x0b && SBox(0x9f) == 0xdb
  {
    hide SBox;
    Entry(0x90, 0xde, 0x60); Entry(0x91, 0x6a, 0x81); Entry(0x92, 0x32, 0x4f); Entry(0x93, 0x6d, 0xdc);
    Entry(0x94, 0xd8, 0x22); Entry(0x95, 0x8a, 0x2a); Entry(0x96, 0x84, 0x90); Entry(0x97, 0x72, 0x88);
    Entry(0x98, 0x2a, 0x46); Entry(0x99, 0x14, 0xee); Entry(0x9a, 0x9f, 0xb8); Entry(0x9b, 0x88, 0x14);
    Entry(0x9c, 0xf9, 0xde); Entry(0x9d, 0xdc, 0x5e); Entry(0x9e, 0x89, 0x0b); Entry(0x9f, 0x9a, 0xdb);
  }

  lemma Rowa()
    ensures SBox(0xa0) == 0xe0 && SBox(0xa1) == 0x32 && SBox(0xa2) == 0x3a && SBox(0xa3) == 0x0a
    ensures SBox(0xa4) == 0x49 && SBox(0xa5) == 0x06 && SBox(0xa6) == 0x24 && SBox(0xa7) == 0x5c
    ensures SBox(0xa8) == 0xc2 && SBox(0xa9) == 0xd3 && SBox(0xaa) == 0xac && SBox(0xab) == 0x62
    ensures SBox(0xac) == 0x91 && SBox(0xad) == 0x95 && SBox(0xae) == 0xe4 && SBox(0xaf) == 0x79
  {
    hide SBox;
    Entry(0xa0, 0xfb, 0xe0); Entry(0xa1, 0x7c, 0x32); Entry(0xa2, 0x2e, 0x3a); Entry(0xa3, 0xc3, 0x0a);
    Entry(0xa4, 0x8f, 0x49); Entry(0xa5, 0xb8, 0x06); Entry(0xa6, 0x65, 0x24); Entry(0xa7, 0x48, 0x5c);
    Entry(0xa8, 0x26, 0xc2); Entry(0xa9, 0xc8, 0xd3); Entry(0xaa, 0x12, 0xac); Entry(0xab, 0x4a, 0x62);
    Entry(0xac, 0xce, 0x91); Entry(0xad, 0xe7, 0x95); Entry(0xae, 0xd2, 0xe4); Entry(0xaf, 0x62, 0x79);
  }

  lemma Rowb()
    ensures SBox(0xb0) == 0xe7 && SBox(0xb1) == 0xc8 && SBox(0xb2) == 0x37 && SBox(0xb3) == 0x6d
    ensures SBox(0xb4) == 0x8d && SBox(0xb5) == 0xd5 && SBox(0xb6) == 0x4e && SBox(0xb7) == 0xa9
    ensures SBox(0xb8) == 0x6c && SBox(0xb9) == 0x56 && SBox(0xba) == 0xf4 && SBox(0xbb) == 0xea
    ensures SBox(0xbc) == 0x65 && SBox(0xbd) == 0x7a && SBox(0xbe) == 0xae && SBox(0xbf) == 0x08
  {
    hide SBox;
    Entry(0xb0, 0x0c, 0xe7); Entry(0xb1, 0xe0, 0xc8); Entry(0xb2, 0x1f, 0x37); Entry(0xb3, 0xef, 0x6d);
    Entry(0xb4, 0x11, 0x8d); Entry(0xb5, 0x75, 0xd5); Entry(0xb6, 0x78, 0x4e); Entry(0xb7, 0x71, 0xa9);
    Entry(0xb8, 0xa5, 0x6c); Entry(0xb9, 0x8e, 0x56); Entry(0xba, 0x76, 0xf4); Entry(0xbb, 0x3d, 0xea);
    Entry(0xbc, 0xbd, 0x65); Entry(0xbd, 0xbc, 0x7a); Entry(0xbe, 0x86, 0xae); Entry(0xbf, 0x57, 0x08);
  }

  lemma Rowc()
    ensures SBox(0xc0) == 0xba && SBox(0xc1) == 0x78 && SBox(0xc2) == 0x25 && SBox(0xc3) == 0x2e
    ensures SBox(0xc4) == 0x1c && SBox(0xc5) == 0xa6 && SBox(0xc6) == 0xb4 && SBox(0xc7) == 0xc6
    ensures SBox(0xc8) == 0xe8 && SBox(0xc9) == 0xdd && SBox(0xca) == 0x74 && SBox(0xcb) == 0x1f
    ensures SBox(0xcc) == 0x4b && SBox(0xcd) == 0xbd && SBox(0xce) == 0x8b && SBox(0xcf) == 0x8a
  {
    hide SBox;
    Entry(0xc0, 0x0b, 0xba); Entry(0xc1, 0x28, 0x78); Entry(0xc2, 0x2f, 0x25); Entry(0xc3, 0xa3, 0x2e);
    Entry(0xc4, 0xda, 0x1c); Entry(0xc5, 0xd4, 0xa6); Entry(0xc6, 0xe4, 0xb4); Entry(0xc7, 0x0f, 0xc6);
    Entry(0xc8, 0xa9, 0xe8); Entry(0xc9, 0x27, 0xdd); Entry(0xca, 0x53, 0x74); Entry(0xcb, 0x04, 0x1f);
    Entry(0xcc, 0x1b, 0x4b); Entry(0xcd, 0xfc, 0xbd); Entry(0xce, 0xac, 0x8b); Entry(0xcf, 0xe6, 0x8a);
  }

  lemma Rowd()
    ensures SBox(0xd0) == 0x70 && SBox(0xd1) == 0x3e && SBox(0xd2) == 0xb5 && SBox(0xd3) == 0x66
    ensures SBox(0xd4) == 0x48 && SBox(0xd5) == 0x03 && SBox(0xd6) == 0xf6 && SBox(0xd7) == 0x0e
    ensures SBox(0xd8) == 0x61 && SBox(0xd9) == 0x35 && SBox(0xda) == 0x57 && SBox(0xdb) == 0xb9
    ensures SBox(0xdc) == 0x86 && SBox(0xdd) == 0xc1 && SBox(0xde) == 0x1d && SBox(0xdf) == 0x9e
  {
    hide SBox;
    Entry(0xd0, 0x7a, 0x70); Entry(0xd1, 0x07, 0x3e); Entry(0xd2, 0xae, 0xb5); Entry(0xd3, 0x63, 0x66);
    Entry(0xd4, 0xc5, 0x48); Entry(0xd5, 0xdb, 0x03); Entry(0xd6, 0xe2, 0xf6); Entry(0xd7, 0xea, 0x0e);
    Entry(0xd8, 0x94, 0x61); Entry(0xd9, 0x8b, 0x35); Entry(0xda, 0xc4, 0x57); Entry(0xdb, 0xd5, 0xb9);
    Entry(0xdc, 0x9d, 0x86); Entry(0xdd, 0xf8, 0xc1); Entry(0xde, 0x90, 0x1d); Entry(0xdf, 0x6b, 0x9e);
  }

  lemma Rowe()
    ensures SBox(0xe0) == 0xe1 && SBox(0xe1) == 0xf8 && SBox(0xe2) == 0x98 && SBox(0xe3) == 0x11
    ensures SBox(0xe4) == 0x69 && SBox(0xe5) == 0xd9 && SBox(0xe6) == 0x8e && SBox(0xe7) == 0x94
    ensures SBox(0xe8) == 0x9b && SBox(0xe9) == 0x1e && SBox(0xea) == 0x87 && SBox(0xeb) == 0xe9
    ensures SBox(0xec) == 0xce && SBox(0xed) == 0x55 && SBox(0xee) == 0x28 && SBox(0xef) == 0xdf
  {
    hide SBox;
    Entry(0xe0, 0xb1, 0xe1); Entry(0xe1, 0x0d, 0xf8); Entry(0xe2, 0xd6, 0x98); Entry(0xe3, 0xeb, 0x11);
    Entry(0xe4, 0xc6, 0x69); Entry(0xe5, 0x0e, 0xd9); Entry(0xe6, 0xcf, 0x8e); Entry(0xe7, 0xad, 0x94);
    Entry(0xe8, 0x08, 0x9b); Entry(0xe9, 0x4e, 0x1e); Entry(0xea, 0xd7, 0x87); Entry(0xeb, 0xe3, 0xe9);
    Entry(0xec, 0x5d, 0xce); Entry(0xed, 0x50, 0x55); Entry(0xee, 0x1e, 0x28); Entry(0xef, 0xb3, 0xdf);
  }

  lemma Rowf()
    ensures SBox(0xf0) == 0x8c && SBox(0xf1) == 0xa1 && SBox(0xf2) == 0x89 && SBox(0xf3) == 0x0d
    ensures SBox(0xf4) == 0xbf && SBox(0xf5) == 0xe6 && SBox(0xf6) == 0x42 && SBox(0xf7) == 0x68
    ensures SBox(0xf8) == 0x41 && SBox(0xf9) == 0x99 && SBox(0xfa) == 0x2d && SBox(0xfb) == 0x0f
    ensures SBox(0xfc) == 0xb0 && SBox(0xfd) == 0x54 && SBox(0xfe) == 0xbb && SBox(0xff) == 0x16
  {
    hide SBox;
    Entry(0xf0, 0x5b, 0x8c); Entry(0xf1, 0x23, 0xa1); Entry(0xf2, 0x38, 0x89); Entry(0xf3, 0x34, 0x0d);
    Entry(0xf4, 0x68, 0xbf); Entry(0xf5, 0x46, 0xe6); Entry(0xf6, 0x03, 0x42); Entry(0xf7, 0x8c, 0x68);
    Entry(0xf8, 0xdd, 0x41); Entry(0xf9, 0x9c, 0x99); Entry(0xfa, 0x7d, 0x2d); Entry(0xfb, 0xa0, 0x0f);
    Entry(0xfc, 0xcd, 0xb0); Entry(0xfd, 0x1a, 0x54); Entry(0xfe, 0x41, 0xbb); Entry(0xff, 0x1c, 0x16);
  }

}
