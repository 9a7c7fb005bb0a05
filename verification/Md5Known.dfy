/** RFC 1321 on bytes: the byte order, the initial value, the length field, and the digest of "abc" worked out. */
module Md5Known {
  import opened Bytes
  import opened Division
  import opened BlockHash
  import opened Md5Spec
  import opened Md5Rounds

  // ---------- byte order ----------

  lemma BytesOfWord(b0: bv8, b1: bv8, b2: bv8, b3: bv8)
    ensures OutputBytes(FromBytes(b0, b1, b2, b3)) == [b0, b1, b2, b3]
  {}

  /** A word read from four bytes is written as these bytes. */
  lemma WordsAsBytes(b: seq<bv8>, i: nat)
    requires i + 4 <= |b|
    ensures OutputBytes(LittleEndian(b, i)) == b[i..i + 4]
  {
    hide OutputBytes, FromBytes;
    BytesOfWord(b[i], b[i + 1], b[i + 2], b[i + 3]);
  }

  /** Section 3.3: the initial value, low-order bytes first. */
  lemma InitialBytes()
    ensures Digest(INITIAL) == [0x01, 0x23, 0x45, 0x67, 0x89, 0xab, 0xcd, 0xef,
                                0xfe, 0xdc, 0xba, 0x98, 0x76, 0x54, 0x32, 0x10]
  {
    hide OutputBytes;
    InitialWords();
  }

  lemma InitialWords()
    ensures OutputBytes(0x67452301) == [0x01, 0x23, 0x45, 0x67]
    ensures OutputBytes(0xEFCDAB89) == [0x89, 0xab, 0xcd, 0xef]
    ensures OutputBytes(0x98BADCFE) == [0xfe, 0xdc, 0xba, 0x98]
    ensures OutputBytes(0x10325476) == [0x76, 0x54, 0x32, 0x10]
  {}

  // ---------- the example of appendix A.5 ----------

  function Abc(): seq<bv8> { [0x61, 0x62, 0x63] }

  function AbcBlock(): Block { [0x61, 0x62, 0x63, 0x80] + Zeros(52) + [24, 0, 0, 0, 0, 0, 0, 0] }

  lemma ByteValues() ensures ByteOf(0) == 0 && ByteOf(24) == 24 {}

  lemma LengthOfAbc()
    ensures Length64(24) == [24, 0, 0, 0, 0, 0, 0, 0]
  {
    hide ByteOf;
    ByteValues();
  }

  lemma AbcBytes()
    ensures Abc() + Padding(3) == AbcBlock()
  {
    hide Zeros, Length64;
    LengthOfAbc();
    assert Padding(3) == [0x80] + Zeros(52) + [24, 0, 0, 0, 0, 0, 0, 0];
  }

  lemma FirstWords()
    ensures FromBytes(0, 0, 0, 0) == 0 && FromBytes(24, 0, 0, 0) == 24
    ensures FromBytes(0x61, 0x62, 0x63, 0x80) == 0x80636261
  {}

  /** The words of the example. */
  predicate Example(x: seq<Word>) {
    |x| == 16 && x[0] == 0x80636261 && x[14] == 24 && forall k :: 1 <= k < 16 && k != 14 ==> x[k] == 0
  }

  lemma AbcIsExample()
    ensures Example(WordsOf(AbcBlock()))
  {
    hide FromBytes;
    FirstWords();
  }

  /** One operation of the example. */
  lemma Next(x: seq<Word>, i: nat, op: Op)
    requires Example(x) && Operation(i, op)
    ensures op.k < 16 && op.s <= 32
    ensures var v := Steps(INITIAL, x, i);
            var b := P(FastAux(RoundOf(i), v.b, v.c, v.d), v.a, v.b, x[op.k], op.s, op.t);
            Steps(INITIAL, x, i + 1) == Vars(v.d, b, v.b, v.c)
  {
    hide P, FastAux, RoundOf, Steps, Operation;
    StepByMacro(INITIAL, x, i, op);
  }

  lemma Operations0To3(x: seq<Word>)
    requires Example(x)
    ensures Steps(INITIAL, x, 4) == Vars(0xD6D117B4, 0x7AD956F2, 0x2F6FBD72, 0x344A8432)
  {
    hide Steps, Operation;
    Literals0();
    assert Steps(INITIAL, x, 0) == INITIAL by { NoSteps(x); }
    Next(x, 0, Op(0, 7, 0xD76AA478));
    assert Steps(INITIAL, x, 1).b == 0xD6D117B4;
    Next(x, 1, Op(1, 12, 0xE8C7B756));
    assert Steps(INITIAL, x, 2).b == 0x344A8432;
    Next(x, 2, Op(2, 17, 0x242070DB));
    assert Steps(INITIAL, x, 3).b == 0x2F6FBD72;
    Next(x, 3, Op(3, 22, 0xC1BDCEEE));
  }

  lemma Operations4To7(x: seq<Word>)
    requires Example(x)
    ensures Steps(INITIAL, x, 8) == Vars(0xC73741EF, 0x928D99F6, 0x207DC67B, 0x8BAC3051)
  {
    hide Steps, Operation;
    Literals4();
    Operations0To3(x);
    Next(x, 4, Op(4, 7, 0xF57C0FAF));
    assert Steps(INITIAL, x, 5).b == 0xC73741EF;
    Next(x, 5, Op(5, 12, 0x4787C62A));
    assert Steps(INITIAL, x, 6).b == 0x8BAC3051;
    Next(x, 6, Op(6, 17, 0xA8304613));
    assert Steps(INITIAL, x, 7).b == 0x207DC67B;
    Next(x, 7, Op(7, 22, 0xFD469501));
  }

  lemma Operations8To11(x: seq<Word>)
    requires Example(x)
    ensures Steps(INITIAL, x, 12) == Vars(0x854B3712, 0x5ED49596, 0x3020401C, 0x74E2F284)
  {
    hide Steps, Operation;
    Literals8();
    Operations4To7(x);
    Next(x, 8, Op(8, 7, 0x698098D8));
    assert Steps(INITIAL, x, 9).b == 0x854B3712;
    Next(x, 9, Op(9, 12, 0x8B44F7AF));
    assert Steps(INITIAL, x, 10).b == 0x74E2F284;
    Next(x, 10, Op(10, 17, 0xFFFF5BB1));
    assert Steps(INITIAL, x, 11).b == 0x3020401C;
    Next(x, 11, Op(11, 22, 0x895CD7BE));
  }

  lemma Operations12To15(x: seq<Word>)
    requires Example(x)
    ensures Steps(INITIAL, x, 16) == Vars(0xDDA9B9A6, 0x72AFF2E0, 0xE396856B, 0xA1051895)
  {
    hide Steps, Operation;
    Literals12();
    Operations8To11(x);
    Next(x, 12, Op(12, 7, 0x6B901122));
    assert Steps(INITIAL, x, 13).b == 0xDDA9B9A6;
    Next(x, 13, Op(13, 12, 0xFD987193));
    assert Steps(INITIAL, x, 14).b == 0xA1051895;
    Next(x, 14, Op(14, 17, 0xA679438E));
    assert Steps(INITIAL, x, 15).b == 0xE396856B;
    Next(x, 15, Op(15, 22, 0x49B40821));
  }

  lemma Operations16To19(x: seq<Word>)
    requires Example(x)
    ensures Steps(INITIAL, x, 20) == Vars(0x3E9E9126, 0xB5B204E4, 0xE25E1652, 0x4A1D804E)
  {
    hide Steps, Operation;
    Literals16();
    Operations12To15(x);
    Next(x, 16, Op(1, 5, 0xF61E2562));
    assert Steps(INITIAL, x, 17).b == 0x3E9E9126;
    Next(x, 17, Op(6, 9, 0xC040B340));
    assert Steps(INITIAL, x, 18).b == 0x4A1D804E;
    Next(x, 18, Op(11, 14, 0x265E5A51));
    assert Steps(INITIAL, x, 19).b == 0xE25E1652;
    Next(x, 19, Op(0, 20, 0xE9B6C7AA));
  }

  lemma Operations20To23(x: seq<Word>)
    requires Example(x)
    ensures Steps(INITIAL, x, 24) == Vars(0x59A8FFDA, 0x47092C07, 0xABFC7920, 0x6D002F1E)
  {
    hide Steps, Operation;
    Literals20();
    Operations16To19(x);
    Next(x, 20, Op(5, 5, 0xD62F105D));
    assert Steps(INITIAL, x, 21).b == 0x59A8FFDA;
    Next(x, 21, Op(10, 9, 0x02441453));
    assert Steps(INITIAL, x, 22).b == 0x6D002F1E;
    Next(x, 22, Op(15, 14, 0xD8A1E681));
    assert Steps(INITIAL, x, 23).b == 0xABFC7920;
    Next(x, 23, Op(4, 20, 0xE7D3FBC8));
  }

  lemma Operations24To27(x: seq<Word>)
    requires Example(x)
    ensures Steps(INITIAL, x, 28) == Vars(0xB7F268CF, 0x786ACB8F, 0xFE1623B1, 0x09388EFF)
  {
    hide Steps, Operation;
    Literals24();
    Operations20To23(x);
    Next(x, 24, Op(9, 5, 0x21E1CDE6));
    assert Steps(INITIAL, x, 25).b == 0xB7F268CF;
    Next(x, 25, Op(14, 9, 0xC33707D6));
    assert Steps(INITIAL, x, 26).b == 0x09388EFF;
    Next(x, 26, Op(3, 14, 0xF4D50D87));
    assert Steps(INITIAL, x, 27).b == 0xFE1623B1;
    Next(x, 27, Op(8, 20, 0x455A14ED));
  }

  lemma Operations28To31(x: seq<Word>)
    requires Example(x)
    ensures Steps(INITIAL, x, 32) == Vars(0x790A77FB, 0x726342D3, 0xA62884AA, 0x9F47E4F8)
  {
    hide Steps, Operation;
    Literals28();
    Operations24To27(x);
    Next(x, 28, Op(13, 5, 0xA9E3E905));
    assert Steps(INITIAL, x, 29).b == 0x790A77FB;
    Next(x, 29, Op(2, 9, 0xFCEFA3F8));
    assert Steps(INITIAL, x, 30).b == 0x9F47E4F8;
    Next(x, 30, Op(7, 14, 0x676F02D9));
    assert Steps(INITIAL, x, 31).b == 0xA62884AA;
    Next(x, 31, Op(12, 20, 0x8D2A4C8A));
  }

  lemma Operations32To35(x: seq<Word>)
    requires Example(x)
    ensures Steps(INITIAL, x, 36) == Vars(0xB3707EBF, 0x3B0875C7, 0x8D212FF5, 0x60127B2E)
  {
    hide Steps, Operation;
    Literals32();
    Operations28To31(x);
    Next(x, 32, Op(5, 4, 0xFFFA3942));
    assert Steps(INITIAL, x, 33).b == 0xB3707EBF;
    Next(x, 33, Op(8, 11, 0x8771F681));
    assert Steps(INITIAL, x, 34).b == 0x60127B2E;
    Next(x, 34, Op(11, 16, 0x6D9D6122));
    assert Steps(INITIAL, x, 35).b == 0x8D212FF5;
    Next(x, 35, Op(14, 23, 0xFDE5380C));
  }

  lemma Operations36To39(x: seq<Word>)
    requires Example(x)
    ensures Steps(INITIAL, x, 40) == Vars(0x21B117B9, 0x5A2F5EA5, 0x3575227E, 0x6E7429D5)
  {
    hide Steps, Operation;
    Literals36();
    Operations32To35(x);
    Next(x, 36, Op(1, 4, 0xA4BEEA44));
    assert Steps(INITIAL, x, 37).b == 0x21B117B9;
    Next(x, 37, Op(4, 11, 0x4BDECFA9));
    assert Steps(INITIAL, x, 38).b == 0x6E7429D5;
    Next(x, 38, Op(7, 16, 0xF6BB4B60));
    assert Steps(INITIAL, x, 39).b == 0x3575227E;
    Next(x, 39, Op(10, 23, 0xBEBFBC70));
  }

  lemma Operations40To43(x: seq<Word>)
    requires Example(x)
    ensures Steps(INITIAL, x, 44) == Vars(0x11DE1779, 0x4C6124F4, 0x31C465CA, 0xFADCAA38)
  {
    hide Steps, Operation;
    Literals40();
    Operations36To39(x);
    Next(x, 40, Op(13, 4, 0x289B7EC6));
    assert Steps(INITIAL, x, 41).b == 0x11DE1779;
    Next(x, 41, Op(0, 11, 0xEAA127FA));
    assert Steps(INITIAL, x, 42).b == 0xFADCAA38;
    Next(x, 42, Op(3, 16, 0xD4EF3085));
    assert Steps(INITIAL, x, 43).b == 0x31C465CA;
    Next(x, 43, Op(6, 23, 0x04881D05));
  }

  lemma Operations44To47(x: seq<Word>)
    requires Example(x)
    ensures Steps(INITIAL, x, 48) == Vars(0x7F2E507B, 0x7BEB9700, 0x8FAE6399, 0x99D9679D)
  {
    hide Steps, Operation;
    Literals44();
    Operations40To43(x);
    Next(x, 44, Op(9, 4, 0xD9D4D039));
    assert Steps(INITIAL, x, 45).b == 0x7F2E507B;
    Next(x, 45, Op(12, 11, 0xE6DB99E5));
    assert Steps(INITIAL, x, 46).b == 0x99D9679D;
    Next(x, 46, Op(15, 16, 0x1FA27CF8));
    assert Steps(INITIAL, x, 47).b == 0x8FAE6399;
    Next(x, 47, Op(2, 23, 0xC4AC5665));
  }

  lemma Operations48To51(x: seq<Word>)
    requires Example(x)
    ensures Steps(INITIAL, x, 52) == Vars(0x7B201DF8, 0x8BF025C4, 0xB298CEFD, 0xF4E8E96E)
  {
    hide Steps, Operation;
    Literals48();
    Operations44To47(x);
    Next(x, 48, Op(0, 6, 0xF4292244));
    assert Steps(INITIAL, x, 49).b == 0x7B201DF8;
    Next(x, 49, Op(7, 10, 0x432AFF97));
    assert Steps(INITIAL, x, 50).b == 0xF4E8E96E;
    Next(x, 50, Op(14, 15, 0xAB9423A7));
    assert Steps(INITIAL, x, 51).b == 0xB298CEFD;
    Next(x, 51, Op(5, 21, 0xFC93A039));
  }

  lemma Operations52To55(x: seq<Word>)
    requires Example(x)
    ensures Steps(INITIAL, x, 56) == Vars(0x06CC5E8A, 0x3BFA2C27, 0x7D632DD0, 0x5B0D97AA)
  {
    hide Steps, Operation;
    Literals52();
    Operations48To51(x);
    Next(x, 52, Op(12, 6, 0x655B59C3));
    assert Steps(INITIAL, x, 53).b == 0x06CC5E8A;
    Next(x, 53, Op(3, 10, 0x8F0CCC92));
    assert Steps(INITIAL, x, 54).b == 0x5B0D97AA;
    Next(x, 54, Op(10, 15, 0xFFEFF47D));
    assert Steps(INITIAL, x, 55).b == 0x7D632DD0;
    Next(x, 55, Op(1, 21, 0x85845DD1));
  }

  lemma Operations56To59(x: seq<Word>)
    requires Example(x)
    ensures Steps(INITIAL, x, 60) == Vars(0x7F81CC35, 0x7327D604, 0x4F9DBE3F, 0x094454AB)
  {
    hide Steps, Operation;
    Literals56();
    Operations52To55(x);
    Next(x, 56, Op(8, 6, 0x6FA87E4F));
    assert Steps(INITIAL, x, 57).b == 0x7F81CC35;
    Next(x, 57, Op(15, 10, 0xFE2CE6E0));
    assert Steps(INITIAL, x, 58).b == 0x094454AB;
    Next(x, 58, Op(6, 15, 0xA3014314));
    assert Steps(INITIAL, x, 59).b == 0x4F9DBE3F;
    Next(x, 59, Op(13, 21, 0x4E0811A1));
  }

  lemma Operations60To63(x: seq<Word>)
    requires Example(x)
    ensures Steps(INITIAL, x, 64) == Vars(0x310ADE8F, 0xC08226B3, 0xE484B9D8, 0x624D8CB2)
  {
    hide Steps, Operation;
    Literals60();
    Operations56To59(x);
    Next(x, 60, Op(4, 6, 0xF7537E82));
    assert Steps(INITIAL, x, 61).b == 0x310ADE8F;
    Next(x, 61, Op(11, 10, 0xBD3AF235));
    assert Steps(INITIAL, x, 62).b == 0x624D8CB2;
    Next(x, 62, Op(2, 15, 0x2AD7D2BB));
    assert Steps(INITIAL, x, 63).b == 0xE484B9D8;
    Next(x, 63, Op(9, 21, 0xEB86D391));
  }

  lemma NoSteps(x: seq<Word>)
    requires |x| == 16
    ensures Steps(INITIAL, x, 0) == INITIAL
  {}

  lemma Sums()
    ensures AddVars(INITIAL, Vars(0x310ADE8F, 0xC08226B3, 0xE484B9D8, 0x624D8CB2))
            == Vars(0x98500190, 0xB04FD23C, 0x7D3F96D6, 0x727FE128)
  {}

  lemma Outputs()
    ensures OutputBytes(0x98500190) == [0x90, 0x01, 0x50, 0x98]
    ensures OutputBytes(0xB04FD23C) == [0x3c, 0xd2, 0x4f, 0xb0]
    ensures OutputBytes(0x7D3F96D6) == [0xd6, 0x96, 0x3f, 0x7d]
    ensures OutputBytes(0x727FE128) == [0x28, 0xe1, 0x7f, 0x72]
  {}

  lemma Hashed()
    ensures Md5(Abc()) == Digest(Compress(INITIAL, AbcBlock()))
  {
    hide Compress, Padding, Digest, AbcBlock;
    AbcBytes();
    FoldBlock(Compress, INITIAL, [], AbcBlock());
    assert [] + AbcBlock() == AbcBlock();
  }

  /** The digest of "abc" is that of the test suite of RFC 1321. */
  lemma DigestOfAbc()
    ensures Md5(Abc()) == [0x90, 0x01, 0x50, 0x98, 0x3c, 0xd2, 0x4f, 0xb0,
                           0xd6, 0x96, 0x3f, 0x7d, 0x28, 0xe1, 0x7f, 0x72]
  {
    hide Steps, WordsOf, OutputBytes, AddVars, AbcBlock, Padding;
    AbcIsExample();
    Operations60To63(WordsOf(AbcBlock()));
    Sums();
    Hashed();
    Outputs();
  }

  // ---------- the length field ----------

  /** The number that bytes are, least significant first. */
  function ValueOf(b: seq<bv8>): nat {
    if b == [] then 0 else Ix(b[0]) + 256 * ValueOf(b[1..])
  }

  lemma FourMore(a: bv8, b: bv8, c: bv8, d: bv8, s: seq<bv8>)
    ensures ValueOf([a, b, c, d] + s) ==
            Ix(a) + 0x100 * Ix(b) + 0x1_0000 * Ix(c) + 0x100_0000 * Ix(d) + 0x1_0000_0000 * ValueOf(s)
  {
    hide Ix, ValueOf;
    assert [a, b, c, d] + s == [a] + ([b] + ([c] + ([d] + s)));
    NextByte(d, s);
    NextByte(c, [d] + s);
    NextByte(b, [c] + ([d] + s));
    NextByte(a, [b] + ([c] + ([d] + s)));
  }

  lemma NextByte(x: bv8, s: seq<bv8>)
    ensures ValueOf([x] + s) == Ix(x) + 256 * ValueOf(s)
  {
    hide Ix;
    assert ([x] + s)[1..] == s;
  }

  lemma Length32Value(n: nat, s: seq<bv8>)
    requires n < TWO_32
    ensures ValueOf(Length32(n) + s) == n + 0x1_0000_0000 * ValueOf(s)
  {
    hide ByteOf, Ix, ValueOf;
    FourMore(ByteOf(n % 256), ByteOf(n / 0x100 % 256), ByteOf(n / 0x1_0000 % 256), ByteOf(n / 0x100_0000 % 256), s);
    ByteIx(n % 256);
    ByteIx(n / 0x100 % 256);
    ByteIx(n / 0x1_0000 % 256);
    ByteIx(n / 0x100_0000 % 256);
    FourBytes(n);
  }

  lemma Nothing() ensures ValueOf([]) == 0 {}

  /** The length field holds the length. */
  lemma LengthField(n: nat)
    requires n < TWO_64
    ensures ValueOf(Length64(n)) == n
  {
    hide Length32, ValueOf;
    var low, high := n % TWO_32, n / TWO_32 % TWO_32;
    Nothing();
    Length32Value(low, Length32(high));
    Length32Value(high, []);
    assert Length32(high) + [] == Length32(high);
  }
}
