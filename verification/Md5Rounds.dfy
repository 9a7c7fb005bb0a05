/** The unrolled compression function of src/util/md5.c against section 3.4 of RFC 1321. */
module Md5Rounds {
  import opened Md5Spec

  // ---------- the macros ----------

  function F1(x: Word, y: Word, z: Word): Word { z ^ (x & (y ^ z)) }
  function F2(x: Word, y: Word, z: Word): Word { y ^ (z & (x ^ y)) }
  function F3(x: Word, y: Word, z: Word): Word { x ^ y ^ z }
  function F4(x: Word, y: Word, z: Word): Word { y ^ (x | !z) }

  /** The macro F as it is defined during round r. */
  function FastAux(r: nat, x: Word, y: Word, z: Word): Word {
    if r == 0 then F1(x, y, z) else if r == 1 then F2(x, y, z) else if r == 2 then F3(x, y, z) else F4(x, y, z)
  }

  /** The macro P, given the value of F(b, c, d). */
  function P(f: Word, a: Word, b: Word, x: Word, s: bv6, t: Word): Word
    requires s <= 32
  {
    Plus(Rotl(Plus(a, Plus(Plus(f, x), t)), s), b)
  }

  lemma F1IsF(x: Word, y: Word, z: Word)
    ensures F1(x, y, z) == F(x, y, z)
  {
    assert z ^ (x & (y ^ z)) == (x & y) | (!x & z);
  }

  lemma F2IsG(x: Word, y: Word, z: Word)
    ensures F2(x, y, z) == G(x, y, z)
  {
    assert y ^ (z & (x ^ y)) == (x & z) | (y & !z);
  }

  lemma FastAuxIsAux(r: nat, x: Word, y: Word, z: Word)
    ensures FastAux(r, x, y, z) == Aux(r, x, y, z)
  {
    hide F, G, H, I, F1, F2, F3, F4;
    F3IsH(x, y, z);
    F1IsF(x, y, z);
    F2IsG(x, y, z);
  }

  lemma F3IsH(x: Word, y: Word, z: Word)
    ensures F3(x, y, z) == H(x, y, z) && F4(x, y, z) == I(x, y, z)
  {}

  /** The literals of one use of P: message word, rotation, table element. */
  datatype Op = Op(k: nat, s: bv6, t: Word)

  /** These are the literals of operation i. */
  predicate Operation(i: nat, op: Op) {
    op.k == Index(i) && op.s == Shift(i) && op.t == T(i)
  }

  /** The round of section 3.4 that operation i is in. */
  function RoundOf(i: nat): nat {
    i / 16
  }

  /** One use of P is one operation of section 3.4. */
  lemma StepByMacro(v0: Vars, x: seq<Word>, i: nat, op: Op)
    requires |x| == 16 && Operation(i, op)
    ensures var v := Steps(v0, x, i);
            && op.k < 16 && op.s <= 32
            && var b := P(FastAux(RoundOf(i), v.b, v.c, v.d), v.a, v.b, x[op.k], op.s, op.t);
               Steps(v0, x, i + 1) == Vars(v.d, b, v.b, v.c)
  {
    hide Plus, Rotl, Aux, FastAux, Index, Shift, T;
    var v := Steps(v0, x, i);
    FastAuxIsAux(i / 16, v.b, v.c, v.d);
  }

  lemma SameRound(i: nat, j: nat)
    requires i % 16 + j < 16
    ensures RoundOf(i + j) == RoundOf(i)
  {
    var q, r := i / 16, i % 16;
    assert i == 16 * q + r;
    assert 16 * q <= i + j < 16 * q + 16;
  }

  /** Four uses of P in a row bring the four registers back to their names. */
  lemma FourSteps(v0: Vars, x: seq<Word>, i: nat, v: Vars, o0: Op, o1: Op, o2: Op, o3: Op)
    requires |x| == 16 && i % 16 <= 12 && v == Steps(v0, x, i)
    requires Operation(i, o0) && Operation(i + 1, o1) && Operation(i + 2, o2) && Operation(i + 3, o3)
    ensures var r := RoundOf(i);
            var a := P(FastAux(r, v.b, v.c, v.d), v.a, v.b, x[o0.k], o0.s, o0.t);
            var d := P(FastAux(r, a, v.b, v.c), v.d, a, x[o1.k], o1.s, o1.t);
            var c := P(FastAux(r, d, a, v.b), v.c, d, x[o2.k], o2.s, o2.t);
            var b := P(FastAux(r, c, d, a), v.b, c, x[o3.k], o3.s, o3.t);
            Steps(v0, x, i + 4) == Vars(a, b, c, d)
  {
    hide FastAux, P, Operation, Steps, RoundOf;
    SameRound(i, 1);
    SameRound(i, 2);
    SameRound(i, 3);
    StepByMacro(v0, x, i, o0);
    StepByMacro(v0, x, i + 1, o1);
    StepByMacro(v0, x, i + 2, o2);
    StepByMacro(v0, x, i + 3, o3);
  }

  // the literals of the unrolled operations, four at a time

  lemma Literals0()
    ensures Operation(0, Op(0, 7, 0xD76AA478))
    ensures Operation(1, Op(1, 12, 0xE8C7B756))
    ensures Operation(2, Op(2, 17, 0x242070DB))
    ensures Operation(3, Op(3, 22, 0xC1BDCEEE))
  {}

  lemma Literals4()
    ensures Operation(4, Op(4, 7, 0xF57C0FAF))
    ensures Operation(5, Op(5, 12, 0x4787C62A))
    ensures Operation(6, Op(6, 17, 0xA8304613))
    ensures Operation(7, Op(7, 22, 0xFD469501))
  {}

  lemma Literals8()
    ensures Operation(8, Op(8, 7, 0x698098D8))
    ensures Operation(9, Op(9, 12, 0x8B44F7AF))
    ensures Operation(10, Op(10, 17, 0xFFFF5BB1))
    ensures Operation(11, Op(11, 22, 0x895CD7BE))
  {}

  lemma Literals12()
    ensures Operation(12, Op(12, 7, 0x6B901122))
    ensures Operation(13, Op(13, 12, 0xFD987193))
    ensures Operation(14, Op(14, 17, 0xA679438E))
    ensures Operation(15, Op(15, 22, 0x49B40821))
  {}

  lemma Literals16()
    ensures Operation(16, Op(1, 5, 0xF61E2562))
    ensures Operation(17, Op(6, 9, 0xC040B340))
    ensures Operation(18, Op(11, 14, 0x265E5A51))
    ensures Operation(19, Op(0, 20, 0xE9B6C7AA))
  {}

  lemma Literals20()
    ensures Operation(20, Op(5, 5, 0xD62F105D))
    ensures Operation(21, Op(10, 9, 0x02441453))
    ensures Operation(22, Op(15, 14, 0xD8A1E681))
    ensures Operation(23, Op(4, 20, 0xE7D3FBC8))
  {}

  lemma Literals24()
    ensures Operation(24, Op(9, 5, 0x21E1CDE6))
    ensures Operation(25, Op(14, 9, 0xC33707D6))
    ensures Operation(26, Op(3, 14, 0xF4D50D87))
    ensures Operation(27, Op(8, 20, 0x455A14ED))
  {}

  lemma Literals28()
    ensures Operation(28, Op(13, 5, 0xA9E3E905))
    ensures Operation(29, Op(2, 9, 0xFCEFA3F8))
    ensures Operation(30, Op(7, 14, 0x676F02D9))
    ensures Operation(31, Op(12, 20, 0x8D2A4C8A))
  {}

  lemma Literals32()
    ensures Operation(32, Op(5, 4, 0xFFFA3942))
    ensures Operation(33, Op(8, 11, 0x8771F681))
    ensures Operation(34, Op(11, 16, 0x6D9D6122))
    ensures Operation(35, Op(14, 23, 0xFDE5380C))
  {}

  lemma Literals36()
    ensures Operation(36, Op(1, 4, 0xA4BEEA44))
    ensures Operation(37, Op(4, 11, 0x4BDECFA9))
    ensures Operation(38, Op(7, 16, 0xF6BB4B60))
    ensures Operation(39, Op(10, 23, 0xBEBFBC70))
  {}

  lemma Literals40()
    ensures Operation(40, Op(13, 4, 0x289B7EC6))
    ensures Operation(41, Op(0, 11, 0xEAA127FA))
    ensures Operation(42, Op(3, 16, 0xD4EF3085))
    ensures Operation(43, Op(6, 23, 0x04881D05))
  {}

  lemma Literals44()
    ensures Operation(44, Op(9, 4, 0xD9D4D039))
    ensures Operation(45, Op(12, 11, 0xE6DB99E5))
    ensures Operation(46, Op(15, 16, 0x1FA27CF8))
    ensures Operation(47, Op(2, 23, 0xC4AC5665))
  {}

  lemma Literals48()
    ensures Operation(48, Op(0, 6, 0xF4292244))
    ensures Operation(49, Op(7, 10, 0x432AFF97))
    ensures Operation(50, Op(14, 15, 0xAB9423A7))
    ensures Operation(51, Op(5, 21, 0xFC93A039))
  {}

  lemma Literals52()
    ensures Operation(52, Op(12, 6, 0x655B59C3))
    ensures Operation(53, Op(3, 10, 0x8F0CCC92))
    ensures Operation(54, Op(10, 15, 0xFFEFF47D))
    ensures Operation(55, Op(1, 21, 0x85845DD1))
  {}

  lemma Literals56()
    ensures Operation(56, Op(8, 6, 0x6FA87E4F))
    ensures Operation(57, Op(15, 10, 0xFE2CE6E0))
    ensures Operation(58, Op(6, 15, 0xA3014314))
    ensures Operation(59, Op(13, 21, 0x4E0811A1))
  {}

  lemma Literals60()
    ensures Operation(60, Op(4, 6, 0xF7537E82))
    ensures Operation(61, Op(11, 10, 0xBD3AF235))
    ensures Operation(62, Op(2, 15, 0x2AD7D2BB))
    ensures Operation(63, Op(9, 21, 0xEB86D391))
  {}

  /** Operations 0 to 7. */
  method Operations0(ghost v0: Vars, v: Vars, X: seq<Word>, ghost n: nat) returns (r: Vars)
    requires |X| == 16 && n == 0 && v == Steps(v0, X, n)
    ensures r == Steps(v0, X, n + 8)
  {
    hide P, F1, F2, F3, F4, Steps, Operation;
    var A, B, C, D := v.a, v.b, v.c, v.d;
    Literals0();
    FourSteps(v0, X, 0, Vars(A, B, C, D),
              Op(0, 7, 0xD76AA478), Op(1, 12, 0xE8C7B756), Op(2, 17, 0x242070DB), Op(3, 22, 0xC1BDCEEE));
    A := P(F1(B, C, D), A, B, X[0], 7, 0xD76AA478);
    D := P(F1(A, B, C), D, A, X[1], 12, 0xE8C7B756);
    C := P(F1(D, A, B), C, D, X[2], 17, 0x242070DB);
    B := P(F1(C, D, A), B, C, X[3], 22, 0xC1BDCEEE);
    Literals4();
    FourSteps(v0, X, 4, Vars(A, B, C, D),
              Op(4, 7, 0xF57C0FAF), Op(5, 12, 0x4787C62A), Op(6, 17, 0xA8304613), Op(7, 22, 0xFD469501));
    A := P(F1(B, C, D), A, B, X[4], 7, 0xF57C0FAF);
    D := P(F1(A, B, C), D, A, X[5], 12, 0x4787C62A);
    C := P(F1(D, A, B), C, D, X[6], 17, 0xA8304613);
    B := P(F1(C, D, A), B, C, X[7], 22, 0xFD469501);
    r := Vars(A, B, C, D);
  }

  /** Operations 8 to 15. */
  method Operations8(ghost v0: Vars, v: Vars, X: seq<Word>, ghost n: nat) returns (r: Vars)
    requires |X| == 16 && n == 8 && v == Steps(v0, X, n)
    ensures r == Steps(v0, X, n + 8)
  {
    hide P, F1, F2, F3, F4, Steps, Operation;
    var A, B, C, D := v.a, v.b, v.c, v.d;
    Literals8();
    FourSteps(v0, X, 8, Vars(A, B, C, D),
              Op(8, 7, 0x698098D8), Op(9, 12, 0x8B44F7AF), Op(10, 17, 0xFFFF5BB1), Op(11, 22, 0x895CD7BE));
    A := P(F1(B, C, D), A, B, X[8], 7, 0x698098D8);
    D := P(F1(A, B, C), D, A, X[9], 12, 0x8B44F7AF);
    C := P(F1(D, A, B), C, D, X[10], 17, 0xFFFF5BB1);
    B := P(F1(C, D, A), B, C, X[11], 22, 0x895CD7BE);
    Literals12();
    FourSteps(v0, X, 12, Vars(A, B, C, D),
              Op(12, 7, 0x6B901122), Op(13, 12, 0xFD987193), Op(14, 17, 0xA679438E), Op(15, 22, 0x49B40821));
    A := P(F1(B, C, D), A, B, X[12], 7, 0x6B901122);
    D := P(F1(A, B, C), D, A, X[13], 12, 0xFD987193);
    C := P(F1(D, A, B), C, D, X[14], 17, 0xA679438E);
    B := P(F1(C, D, A), B, C, X[15], 22, 0x49B40821);
    r := Vars(A, B, C, D);
  }

  /** Operations 16 to 23. */
  method Operations16(ghost v0: Vars, v: Vars, X: seq<Word>, ghost n: nat) returns (r: Vars)
    requires |X| == 16 && n == 16 && v == Steps(v0, X, n)
    ensures r == Steps(v0, X, n + 8)
  {
    hide P, F1, F2, F3, F4, Steps, Operation;
    var A, B, C, D := v.a, v.b, v.c, v.d;
    Literals16();
    FourSteps(v0, X, 16, Vars(A, B, C, D),
              Op(1, 5, 0xF61E2562), Op(6, 9, 0xC040B340), Op(11, 14, 0x265E5A51), Op(0, 20, 0xE9B6C7AA));
    A := P(F2(B, C, D), A, B, X[1], 5, 0xF61E2562);
    D := P(F2(A, B, C), D, A, X[6], 9, 0xC040B340);
    C := P(F2(D, A, B), C, D, X[11], 14, 0x265E5A51);
    B := P(F2(C, D, A), B, C, X[0], 20, 0xE9B6C7AA);
    Literals20();
    FourSteps(v0, X, 20, Vars(A, B, C, D),
              Op(5, 5, 0xD62F105D), Op(10, 9, 0x02441453), Op(15, 14, 0xD8A1E681), Op(4, 20, 0xE7D3FBC8));
    A := P(F2(B, C, D), A, B, X[5], 5, 0xD62F105D);
    D := P(F2(A, B, C), D, A, X[10], 9, 0x02441453);
    C := P(F2(D, A, B), C, D, X[15], 14, 0xD8A1E681);
    B := P(F2(C, D, A), B, C, X[4], 20, 0xE7D3FBC8);
    r := Vars(A, B, C, D);
  }

  /** Operations 24 to 31. */
  method Operations24(ghost v0: Vars, v: Vars, X: seq<Word>, ghost n: nat) returns (r: Vars)
    requires |X| == 16 && n == 24 && v == Steps(v0, X, n)
    ensures r == Steps(v0, X, n + 8)
  {
    hide P, F1, F2, F3, F4, Steps, Operation;
    var A, B, C, D := v.a, v.b, v.c, v.d;
    Literals24();
    FourSteps(v0, X, 24, Vars(A, B, C, D),
              Op(9, 5, 0x21E1CDE6), Op(14, 9, 0xC33707D6), Op(3, 14, 0xF4D50D87), Op(8, 20, 0x455A14ED));
    A := P(F2(B, C, D), A, B, X[9], 5, 0x21E1CDE6);
    D := P(F2(A, B, C), D, A, X[14], 9, 0xC33707D6);
    C := P(F2(D, A, B), C, D, X[3], 14, 0xF4D50D87);
    B := P(F2(C, D, A), B, C, X[8], 20, 0x455A14ED);
    Literals28();
    FourSteps(v0, X, 28, Vars(A, B, C, D),
              Op(13, 5, 0xA9E3E905), Op(2, 9, 0xFCEFA3F8), Op(7, 14, 0x676F02D9), Op(12, 20, 0x8D2A4C8A));
    A := P(F2(B, C, D), A, B, X[13], 5, 0xA9E3E905);
    D := P(F2(A, B, C), D, A, X[2], 9, 0xFCEFA3F8);
    C := P(F2(D, A, B), C, D, X[7], 14, 0x676F02D9);
    B := P(F2(C, D, A), B, C, X[12], 20, 0x8D2A4C8A);
    r := Vars(A, B, C, D);
  }

  /** Operations 32 to 39. */
  method Operations32(ghost v0: Vars, v: Vars, X: seq<Word>, ghost n: nat) returns (r: Vars)
    requires |X| == 16 && n == 32 && v == Steps(v0, X, n)
    ensures r == Steps(v0, X, n + 8)
  {
    hide P, F1, F2, F3, F4, Steps, Operation;
    var A, B, C, D := v.a, v.b, v.c, v.d;
    Literals32();
    FourSteps(v0, X, 32, Vars(A, B, C, D),
              Op(5, 4, 0xFFFA3942), Op(8, 11, 0x8771F681), Op(11, 16, 0x6D9D6122), Op(14, 23, 0xFDE5380C));
    A := P(F3(B, C, D), A, B, X[5], 4, 0xFFFA3942);
    D := P(F3(A, B, C), D, A, X[8], 11, 0x8771F681);
    C := P(F3(D, A, B), C, D, X[11], 16, 0x6D9D6122);
    B := P(F3(C, D, A), B, C, X[14], 23, 0xFDE5380C);
    Literals36();
    FourSteps(v0, X, 36, Vars(A, B, C, D),
              Op(1, 4, 0xA4BEEA44), Op(4, 11, 0x4BDECFA9), Op(7, 16, 0xF6BB4B60), Op(10, 23, 0xBEBFBC70));
    A := P(F3(B, C, D), A, B, X[1], 4, 0xA4BEEA44);
    D := P(F3(A, B, C), D, A, X[4], 11, 0x4BDECFA9);
    C := P(F3(D, A, B), C, D, X[7], 16, 0xF6BB4B60);
    B := P(F3(C, D, A), B, C, X[10], 23, 0xBEBFBC70);
    r := Vars(A, B, C, D);
  }

  /** Operations 40 to 47. */
  method Operations40(ghost v0: Vars, v: Vars, X: seq<Word>, ghost n: nat) returns (r: Vars)
    requires |X| == 16 && n == 40 && v == Steps(v0, X, n)
    ensures r == Steps(v0, X, n + 8)
  {
    hide P, F1, F2, F3, F4, Steps, Operation;
    var A, B, C, D := v.a, v.b, v.c, v.d;
    Literals40();
    FourSteps(v0, X, 40, Vars(A, B, C, D),
              Op(13, 4, 0x289B7EC6), Op(0, 11, 0xEAA127FA), Op(3, 16, 0xD4EF3085), Op(6, 23, 0x04881D05));
    A := P(F3(B, C, D), A, B, X[13], 4, 0x289B7EC6);
    D := P(F3(A, B, C), D, A, X[0], 11, 0xEAA127FA);
    C := P(F3(D, A, B), C, D, X[3], 16, 0xD4EF3085);
    B := P(F3(C, D, A), B, C, X[6], 23, 0x04881D05);
    Literals44();
    FourSteps(v0, X, 44, Vars(A, B, C, D),
              Op(9, 4, 0xD9D4D039), Op(12, 11, 0xE6DB99E5), Op(15, 16, 0x1FA27CF8), Op(2, 23, 0xC4AC5665));
    A := P(F3(B, C, D), A, B, X[9], 4, 0xD9D4D039);
    D := P(F3(A, B, C), D, A, X[12], 11, 0xE6DB99E5);
    C := P(F3(D, A, B), C, D, X[15], 16, 0x1FA27CF8);
    B := P(F3(C, D, A), B, C, X[2], 23, 0xC4AC5665);
    r := Vars(A, B, C, D);
  }

  /** Operations 48 to 55. */
  method Operations48(ghost v0: Vars, v: Vars, X: seq<Word>, ghost n: nat) returns (r: Vars)
    requires |X| == 16 && n == 48 && v == Steps(v0, X, n)
    ensures r == Steps(v0, X, n + 8)
  {
    hide P, F1, F2, F3, F4, Steps, Operation;
    var A, B, C, D := v.a, v.b, v.c, v.d;
    Literals48();
    FourSteps(v0, X, 48, Vars(A, B, C, D),
              Op(0, 6, 0xF4292244), Op(7, 10, 0x432AFF97), Op(14, 15, 0xAB9423A7), Op(5, 21, 0xFC93A039));
    A := P(F4(B, C, D), A, B, X[0], 6, 0xF4292244);
    D := P(F4(A, B, C), D, A, X[7], 10, 0x432AFF97);
    C := P(F4(D, A, B), C, D, X[14], 15, 0xAB9423A7);
    B := P(F4(C, D, A), B, C, X[5], 21, 0xFC93A039);
    Literals52();
    FourSteps(v0, X, 52, Vars(A, B, C, D),
              Op(12, 6, 0x655B59C3), Op(3, 10, 0x8F0CCC92), Op(10, 15, 0xFFEFF47D), Op(1, 21, 0x85845DD1));
    A := P(F4(B, C, D), A, B, X[12], 6, 0x655B59C3);
    D := P(F4(A, B, C), D, A, X[3], 10, 0x8F0CCC92);
    C := P(F4(D, A, B), C, D, X[10], 15, 0xFFEFF47D);
    B := P(F4(C, D, A), B, C, X[1], 21, 0x85845DD1);
    r := Vars(A, B, C, D);
  }

  /** Operations 56 to 63. */
  method Operations56(ghost v0: Vars, v: Vars, X: seq<Word>, ghost n: nat) returns (r: Vars)
    requires |X| == 16 && n == 56 && v == Steps(v0, X, n)
    ensures r == Steps(v0, X, n + 8)
  {
    hide P, F1, F2, F3, F4, Steps, Operation;
    var A, B, C, D := v.a, v.b, v.c, v.d;
    Literals56();
    FourSteps(v0, X, 56, Vars(A, B, C, D),
              Op(8, 6, 0x6FA87E4F), Op(15, 10, 0xFE2CE6E0), Op(6, 15, 0xA3014314), Op(13, 21, 0x4E0811A1));
    A := P(F4(B, C, D), A, B, X[8], 6, 0x6FA87E4F);
    D := P(F4(A, B, C), D, A, X[15], 10, 0xFE2CE6E0);
    C := P(F4(D, A, B), C, D, X[6], 15, 0xA3014314);
    B := P(F4(C, D, A), B, C, X[13], 21, 0x4E0811A1);
    Literals60();
    FourSteps(v0, X, 60, Vars(A, B, C, D),
              Op(4, 6, 0xF7537E82), Op(11, 10, 0xBD3AF235), Op(2, 15, 0x2AD7D2BB), Op(9, 21, 0xEB86D391));
    A := P(F4(B, C, D), A, B, X[4], 6, 0xF7537E82);
    D := P(F4(A, B, C), D, A, X[11], 10, 0xBD3AF235);
    C := P(F4(D, A, B), C, D, X[2], 15, 0x2AD7D2BB);
    B := P(F4(C, D, A), B, C, X[9], 21, 0xEB86D391);
    r := Vars(A, B, C, D);
  }
}
