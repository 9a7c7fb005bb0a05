/** CBC mode: utils_aes_crypt_cbc and utils_aes_cbc against section 6.2 of NIST SP 800-38A. */
module AesCbc {
  import opened AesField
  import opened AesWord
  import opened AesCipher
  import opened AesTables
  import opened AesKeys
  import opened AesBlock

  const DECRYPT := 0
  const ENCRYPT := 1
  const INVALID_INPUT_LENGTH := -0x0022

  /** Bytewise exclusive or. */
  function AddBytes(a: seq<bv8>, b: seq<bv8>): (r: seq<bv8>)
    requires |a| == |b|
    ensures |r| == |a|
  {
    seq(|a|, i requires 0 <= i < |a| => Add(a[i], b[i]))
  }

  ghost predicate Keys(ks: seq<State>) {
    |ks| >= 2
  }

  predicate Whole(m: seq<bv8>) {
    |m| % 16 == 0
  }

  /** Section 6.2: C[j] is the encryption of P[j] + C[j - 1], with C[0] the initialisation vector. */
  ghost function CbcEncrypt(ks: seq<State>, iv: seq<bv8>, p: seq<bv8>): (c: seq<bv8>)
    requires Keys(ks) && |iv| == 16 && Whole(p)
    ensures |c| == |p|
    decreases |p|
  {
    hide EncryptBlock, AddBytes;
    if p == [] then []
    else
      var c := EncryptBlock(ks, AddBytes(p[..16], iv));
      c + CbcEncrypt(ks, c, p[16..])
  }

  /** P[j] is the decryption of C[j] plus C[j - 1]. */
  ghost function CbcDecrypt(ks: seq<State>, iv: seq<bv8>, c: seq<bv8>): (p: seq<bv8>)
    requires Keys(ks) && |iv| == 16 && Whole(c)
    ensures |p| == |c|
    decreases |c|
  {
    hide DecryptBlock, AddBytes;
    if c == [] then []
    else AddBytes(DecryptBlock(ks, c[..16]), iv) + CbcDecrypt(ks, c[..16], c[16..])
  }

  /** The block a following call has to start from. */
  function NextIv(iv: seq<bv8>, c: seq<bv8>): (r: seq<bv8>)
    requires |iv| == 16 && Whole(c)
    ensures |r| == 16
  {
    if c == [] then iv else c[|c| - 16..]
  }

  lemma AddBytesTwice(a: seq<bv8>, b: seq<bv8>)
    requires |a| == |b|
    ensures AddBytes(AddBytes(a, b), b) == a
  {
    hide Add;
    forall i | 0 <= i < |a|
      ensures AddBytes(AddBytes(a, b), b)[i] == a[i]
    {
      AddTwice(a[i], b[i]);
    }
  }

  /** CBC decryption undoes CBC encryption, for any number of blocks. */
  lemma {:induction false} CbcDecryptOfEncrypt(ks: seq<State>, iv: seq<bv8>, p: seq<bv8>)
    requires Keys(ks) && |iv| == 16 && Whole(p)
    ensures CbcDecrypt(ks, iv, CbcEncrypt(ks, iv, p)) == p
    decreases |p|
  {
    hide EncryptBlock, DecryptBlock, AddBytes;
    if p != [] {
      var x := AddBytes(p[..16], iv);
      var c := EncryptBlock(ks, x);
      var all := CbcEncrypt(ks, iv, p);
      assert all[..16] == c && all[16..] == CbcEncrypt(ks, c, p[16..]);
      BlockRoundTrip(ks, x);
      AddBytesTwice(p[..16], iv);
      CbcDecryptOfEncrypt(ks, c, p[16..]);
      assert p == p[..16] + p[16..];
    }
  }

  /** CBC encryption undoes CBC decryption: every whole-block message is a ciphertext. */
  lemma {:induction false} CbcEncryptOfDecrypt(ks: seq<State>, iv: seq<bv8>, c: seq<bv8>)
    requires Keys(ks) && |iv| == 16 && Whole(c)
    ensures CbcEncrypt(ks, iv, CbcDecrypt(ks, iv, c)) == c
    decreases |c|
  {
    hide EncryptBlock, DecryptBlock, AddBytes;
    if c != [] {
      var y := DecryptBlock(ks, c[..16]);
      var all := CbcDecrypt(ks, iv, c);
      assert all[..16] == AddBytes(y, iv) && all[16..] == CbcDecrypt(ks, c[..16], c[16..]);
      AddBytesTwice(y, iv);
      BlockRoundTrip(ks, c[..16]);
      CbcEncryptOfDecrypt(ks, c[..16], c[16..]);
      assert c == c[..16] + c[16..];
    }
  }

  /** Two messages with the same ciphertext under the same key and vector are the same message. */
  lemma CbcInjective(ks: seq<State>, iv: seq<bv8>, p: seq<bv8>, q: seq<bv8>)
    requires Keys(ks) && |iv| == 16 && Whole(p) && Whole(q)
    ensures CbcEncrypt(ks, iv, p) == CbcEncrypt(ks, iv, q) <==> p == q
  {
    hide CbcEncrypt, CbcDecrypt;
    CbcDecryptOfEncrypt(ks, iv, p);
    CbcDecryptOfEncrypt(ks, iv, q);
  }

  /** Block j of a message. */
  function BlockAt(m: seq<bv8>, j: nat): (b: seq<bv8>)
    requires 16 * j + 16 <= |m|
    ensures |b| == 16
  {
    m[16 * j..16 * j + 16]
  }

  lemma LaterBlock(a: seq<bv8>, m: seq<bv8>, j: nat)
    requires |a| == 16 && 16 * j + 16 <= |m|
    ensures BlockAt(a + m, j + 1) == BlockAt(m, j)
  {}

  lemma FirstBlock(a: seq<bv8>, m: seq<bv8>)
    requires |a| == 16
    ensures BlockAt(a + m, 0) == a
  {}

  /** The equations of section 6.2, block by block: C[j] = CIPH(P[j] + C[j - 1]), and C[0] from the vector. */
  lemma {:induction false} CbcEncryptAt(ks: seq<State>, iv: seq<bv8>, p: seq<bv8>, j: nat)
    requires Keys(ks) && |iv| == 16 && Whole(p) && 16 * j + 16 <= |p|
    ensures var c := CbcEncrypt(ks, iv, p);
            BlockAt(c, j) == EncryptBlock(ks, AddBytes(BlockAt(p, j), if j == 0 then iv else BlockAt(c, j - 1)))
    decreases j
  {
    hide EncryptBlock, AddBytes, BlockAt;
    var b, rest := p[..16], p[16..];
    assert p == b + rest;
    var first := EncryptBlock(ks, AddBytes(b, iv));
    var tail := CbcEncrypt(ks, first, rest);
    FirstBlock(b, rest);
    FirstBlock(first, tail);
    if j > 0 {
      CbcEncryptAt(ks, first, rest, j - 1);
      LaterBlock(b, rest, j - 1);
      LaterBlock(first, tail, j - 1);
      if j > 1 {
        LaterBlock(first, tail, j - 2);
      }
    }
  }

  /** P[j] = CIPH^-1(C[j]) + C[j - 1], and P[0] with the vector. */
  lemma {:induction false} CbcDecryptAt(ks: seq<State>, iv: seq<bv8>, c: seq<bv8>, j: nat)
    requires Keys(ks) && |iv| == 16 && Whole(c) && 16 * j + 16 <= |c|
    ensures BlockAt(CbcDecrypt(ks, iv, c), j)
            == AddBytes(DecryptBlock(ks, BlockAt(c, j)), if j == 0 then iv else BlockAt(c, j - 1))
    decreases j
  {
    hide DecryptBlock, AddBytes, BlockAt;
    var b, rest := c[..16], c[16..];
    assert c == b + rest;
    var first := AddBytes(DecryptBlock(ks, b), iv);
    var tail := CbcDecrypt(ks, b, rest);
    FirstBlock(b, rest);
    FirstBlock(first, tail);
    if j > 0 {
      CbcDecryptAt(ks, b, rest, j - 1);
      LaterBlock(b, rest, j - 1);
      LaterBlock(first, tail, j - 1);
      if j > 1 {
        LaterBlock(b, rest, j - 2);
      }
    }
  }

  /** Bit m of a sum of bytes is the exclusive or of their bits. */
  lemma AddBytesBit(a: seq<bv8>, b: seq<bv8>, i: nat, m: bv8)
    requires |a| == |b| && i < |a| && m in {1, 2, 4, 8, 16, 32, 64, 128}
    ensures AddBytes(a, b)[i] & m != 0 <==> (a[i] & m != 0) != (b[i] & m != 0)
  {
    hide Add;
    AddBit(a[i], b[i], m);
  }

  lemma AddBit(a: bv8, b: bv8, m: bv8)
    requires m in {1, 2, 4, 8, 16, 32, 64, 128}
    ensures Add(a, b) & m != 0 <==> (a & m != 0) != (b & m != 0)
  {}

  /** The vector a call of CbcEncrypt leaves behind. */
  ghost function IvAfter(ks: seq<State>, iv: seq<bv8>, p: seq<bv8>): (r: seq<bv8>)
    requires Keys(ks) && |iv| == 16 && Whole(p)
    ensures |r| == 16
  {
    NextIv(iv, CbcEncrypt(ks, iv, p))
  }

  lemma CbcOfNone(ks: seq<State>, iv: seq<bv8>)
    requires Keys(ks) && |iv| == 16
    ensures CbcEncrypt(ks, iv, []) == [] && CbcDecrypt(ks, iv, []) == []
  {}

  lemma WholeParts(p: seq<bv8>, q: seq<bv8>)
    requires Whole(p) && Whole(q)
    ensures Whole(p + q) && (p != [] ==> |p| >= 16 && Whole(p[16..]) && Whole(p[16..] + q))
    ensures p != [] ==> (p + q)[..16] == p[..16] && (p + q)[16..] == p[16..] + q
  {}

  /** The first block of a message, whatever follows. */
  lemma EncryptFirst(ks: seq<State>, iv: seq<bv8>, p: seq<bv8>, q: seq<bv8>) returns (c: seq<bv8>)
    requires Keys(ks) && |iv| == 16 && Whole(p) && Whole(q) && p != []
    requires |p| >= 16 && Whole(p + q) && Whole(p[16..]) && Whole(p[16..] + q)
    ensures |c| == 16 && CbcEncrypt(ks, iv, p) == c + CbcEncrypt(ks, c, p[16..])
    ensures CbcEncrypt(ks, iv, p + q) == c + CbcEncrypt(ks, c, p[16..] + q)
  {
    hide EncryptBlock, AddBytes;
    WholeParts(p, q);
    c := EncryptBlock(ks, AddBytes(p[..16], iv));
  }

  lemma DecryptFirst(ks: seq<State>, iv: seq<bv8>, c: seq<bv8>, d: seq<bv8>) returns (p: seq<bv8>)
    requires Keys(ks) && |iv| == 16 && Whole(c) && Whole(d) && c != []
    requires |c| >= 16 && Whole(c + d) && Whole(c[16..]) && Whole(c[16..] + d)
    ensures CbcDecrypt(ks, iv, c) == p + CbcDecrypt(ks, c[..16], c[16..])
    ensures CbcDecrypt(ks, iv, c + d) == p + CbcDecrypt(ks, c[..16], c[16..] + d)
  {
    hide DecryptBlock, AddBytes;
    WholeParts(c, d);
    p := AddBytes(DecryptBlock(ks, c[..16]), iv);
  }

  lemma NextIvFirst(iv: seq<bv8>, b: seq<bv8>, m: seq<bv8>)
    requires |iv| == 16 && |b| == 16 && Whole(m)
    ensures NextIv(iv, b + m) == NextIv(b, m)
  {}

  lemma Assoc(a: seq<bv8>, b: seq<bv8>, c: seq<bv8>)
    ensures (a + b) + c == a + (b + c)
  {}

  /** Encrypting a message in two calls, the second with the vector the first left behind, gives the
      ciphertext of one call. */
  lemma {:induction false} CbcEncryptSplit(ks: seq<State>, iv: seq<bv8>, p: seq<bv8>, q: seq<bv8>)
    requires Keys(ks) && |iv| == 16 && Whole(p) && Whole(q)
    ensures Whole(p + q)
    ensures CbcEncrypt(ks, iv, p + q) == CbcEncrypt(ks, iv, p) + CbcEncrypt(ks, IvAfter(ks, iv, p), q)
    ensures IvAfter(ks, iv, p + q) == IvAfter(ks, IvAfter(ks, iv, p), q)
    decreases |p|
  {
    hide EncryptBlock, AddBytes, CbcEncrypt, NextIv, Whole;
    WholeParts(p, q);
    if p == [] {
      assert p + q == q;
      CbcOfNone(ks, iv);
      NextIvOfNone(iv);
      assert [] + CbcEncrypt(ks, iv, q) == CbcEncrypt(ks, iv, q);
    } else {
      var m := p[16..];
      var c := EncryptFirst(ks, iv, p, q);
      CbcEncryptSplit(ks, c, m, q);
      NextIvFirst(iv, c, CbcEncrypt(ks, c, m));
      NextIvFirst(iv, c, CbcEncrypt(ks, c, m + q));
      Assoc(c, CbcEncrypt(ks, c, m), CbcEncrypt(ks, IvAfter(ks, c, m), q));
    }
  }

  lemma NextIvOfNone(iv: seq<bv8>)
    requires |iv| == 16
    ensures NextIv(iv, []) == iv
  {}

  lemma {:induction false} CbcDecryptSplit(ks: seq<State>, iv: seq<bv8>, c: seq<bv8>, d: seq<bv8>)
    requires Keys(ks) && |iv| == 16 && Whole(c) && Whole(d)
    ensures Whole(c + d)
    ensures CbcDecrypt(ks, iv, c + d) == CbcDecrypt(ks, iv, c) + CbcDecrypt(ks, NextIv(iv, c), d)
    ensures NextIv(iv, c + d) == NextIv(NextIv(iv, c), d)
    decreases |c|
  {
    hide DecryptBlock, AddBytes, CbcDecrypt, NextIv, Whole;
    WholeParts(c, d);
    if c == [] {
      assert c + d == d;
      CbcOfNone(ks, iv);
      NextIvOfNone(iv);
      assert [] + CbcDecrypt(ks, iv, d) == CbcDecrypt(ks, iv, d);
    } else {
      var b, m := c[..16], c[16..];
      var p := DecryptFirst(ks, iv, c, d);
      CbcDecryptSplit(ks, b, m, d);
      assert c == b + m && c + d == b + (m + d);
      NextIvFirst(iv, b, m);
      NextIvFirst(iv, b, m + d);
      Assoc(p, CbcDecrypt(ks, b, m), CbcDecrypt(ks, NextIv(b, m), d));
    }
  }

  // ---------- one block ----------

  lemma OneBlock(ks: seq<State>, iv: seq<bv8>, b: seq<bv8>)
    requires Keys(ks) && |iv| == 16 && |b| == 16
    ensures CbcEncrypt(ks, iv, b) == EncryptBlock(ks, AddBytes(b, iv))
    ensures CbcDecrypt(ks, iv, b) == AddBytes(DecryptBlock(ks, b), iv)
  {
    hide EncryptBlock, DecryptBlock, AddBytes;
    assert b[..16] == b && b[16..] == [];
  }

  lemma NextBlock(ks: seq<State>, iv: seq<bv8>, m: seq<bv8>, pos: nat)
    requires Keys(ks) && |iv| == 16 && Whole(m) && pos % 16 == 0 && pos + 16 <= |m|
    ensures var b := m[pos..pos + 16];
            var c, p := CbcEncrypt(ks, iv, m[..pos]), CbcDecrypt(ks, iv, m[..pos]);
            var e := EncryptBlock(ks, AddBytes(b, NextIv(iv, c)));
            && CbcEncrypt(ks, iv, m[..pos + 16]) == c + e
            && NextIv(iv, c + e) == e
            && CbcDecrypt(ks, iv, m[..pos + 16]) == p + AddBytes(DecryptBlock(ks, b), NextIv(iv, m[..pos]))
            && NextIv(iv, m[..pos + 16]) == b
  {
    hide EncryptBlock, DecryptBlock, AddBytes, CbcEncrypt, CbcDecrypt;
    var b := m[pos..pos + 16];
    assert m[..pos + 16] == m[..pos] + b;
    CbcEncryptSplit(ks, iv, m[..pos], b);
    CbcDecryptSplit(ks, iv, m[..pos], b);
    OneBlock(ks, NextIv(iv, CbcEncrypt(ks, iv, m[..pos])), b);
    OneBlock(ks, NextIv(iv, m[..pos]), b);
  }

  /** for (i = 0; i < 16; i++) output[i] = input[i] ^ iv[i] */
  method XorInto(input: array<bv8>, output: array<bv8>, pos: nat, iv: array<bv8>)
    requires pos + 16 <= input.Length && pos + 16 <= output.Length && iv.Length == 16 && iv != output
    modifies output
    ensures output[..] == old(output[..pos]) + old(AddBytes(input[pos..pos + 16], iv[..])) + old(output[pos + 16..])
  {
    hide Add, AddBytes;
    ghost var was, x, v := output[..], input[pos..pos + 16], iv[..];
    for i := 0 to 16
      invariant forall k :: 0 <= k < |was| && !(pos <= k < pos + i) ==> output[k] == was[k]
      invariant forall k :: i <= k < 16 ==> input[pos + k] == x[k]
      invariant forall k: nat :: k < i ==> output[pos + k] == Add(x[k], v[k])
    {
      output[pos + i] := Add(input[pos + i], iv[i]);
    }
    Xored(was, x, v, output[..], pos);
  }

  lemma Xored(was: seq<bv8>, x: seq<bv8>, v: seq<bv8>, now: seq<bv8>, pos: nat)
    requires |x| == |v| == 16 && |now| == |was| && pos + 16 <= |was|
    requires forall k :: 0 <= k < |was| && !(pos <= k < pos + 16) ==> now[k] == was[k]
    requires forall k: nat :: k < 16 ==> now[pos + k] == Add(x[k], v[k])
    ensures now == was[..pos] + AddBytes(x, v) + was[pos + 16..]
  {
    hide Add;
  }

  /** memcpy(to, from + pos, 16) */
  method CopyBlock(from: array<bv8>, pos: nat, to: array<bv8>)
    requires pos + 16 <= from.Length && to.Length == 16 && to != from
    modifies to
    ensures to[..] == from[pos..pos + 16]
  {
    for i := 0 to 16
      invariant forall k: nat :: k < i ==> to[k] == from[pos + k]
    {
      to[i] := from[pos + i];
    }
  }

  /** output with m written over the bytes from pos on. */
  ghost predicate Written(now: seq<bv8>, was: seq<bv8>, m: seq<bv8>) {
    |m| <= |was| && now == m + was[|m|..]
  }

  lemma WriteBlock(now: seq<bv8>, was: seq<bv8>, m: seq<bv8>, b: seq<bv8>)
    requires Written(now, was, m) && |b| == 16 && |m| + 16 <= |now|
    ensures |now| == |was| && now[|m| + 16..] == was[|m| + 16..]
    ensures Written(now[..|m|] + b + now[|m| + 16..], was, m + b)
  {}

  lemma Slices(a: seq<bv8>, b: seq<bv8>, z: seq<bv8>, all: seq<bv8>)
    requires all == a + b + z
    ensures all[..|a|] == a && all[|a|..|a| + |b|] == b && all[|a| + |b|..] == z
  {}

  /** The encryption branch of the loop body. */
  method EncryptStep(t: Tables, ctx: AesContext, iv: array<bv8>, input: array<bv8>, output: array<bv8>, pos: nat,
                     ghost ks: seq<State>)
    requires t.Shape() && t.Ready() && ctx.Loaded(ks)
    requires pos + 16 <= input.Length && pos + 16 <= output.Length && iv.Length == 16 && iv !in {input, output}
    requires output !in t.Arrays() && iv !in t.Arrays()
    modifies output, iv
    ensures t.Ready() && ctx.Loaded(ks)
    ensures iv[..] == EncryptBlock(ks, AddBytes(old(input[pos..pos + 16]), old(iv[..])))
    ensures output[..] == old(output[..pos]) + iv[..] + old(output[pos + 16..])
    ensures input[pos + 16..] == old(input[pos + 16..])
  {
    hide t.Ready, EncryptBlock, AddBytes, KeyWord;
    ghost var a, x, z := output[..pos], AddBytes(input[pos..pos + 16], iv[..]), output[pos + 16..];
    XorInto(input, output, pos, iv);
    Slices(a, x, z, output[..]);
    Encrypt(t, ctx, output, pos, output, pos, ks);
    Slices(a, EncryptBlock(ks, x), z, output[..]);
    CopyBlock(output, pos, iv);
  }

  /** Decryption of one block and the xor with the vector. */
  method DecryptXor(t: Tables, ctx: AesContext, iv: array<bv8>, input: array<bv8>, output: array<bv8>, pos: nat,
                    ghost ks: seq<State>)
    requires t.Shape() && t.Ready() && Keys(ks) && ctx.Loaded(DecKeys(ks))
    requires pos + 16 <= input.Length && pos + 16 <= output.Length && iv.Length == 16 && iv != output
    requires output !in t.Arrays()
    modifies output
    ensures t.Ready() && ctx.Loaded(DecKeys(ks))
    ensures var p := AddBytes(DecryptBlock(ks, old(input[pos..pos + 16])), iv[..]);
            output[..] == old(output[..pos]) + p + old(output[pos + 16..])
  {
    hide t.Ready, ctx.Loaded, DecryptBlock, AddBytes, KeyWord, DecKeys;
    ghost var a, x, z := output[..pos], DecryptBlock(ks, input[pos..pos + 16]), output[pos + 16..];
    Decrypt(t, ctx, input, pos, output, pos, ks);
    Slices(a, x, z, output[..]);
    XorInto(output, output, pos, iv);
    Slices(a, AddBytes(x, iv[..]), z, output[..]);
  }

  /** The decryption branch: the ciphertext block is saved in temp, since output may be input. */
  method DecryptStep(t: Tables, ctx: AesContext, iv: array<bv8>, input: array<bv8>, output: array<bv8>, pos: nat,
                     ghost ks: seq<State>)
    requires t.Shape() && t.Ready() && Keys(ks) && ctx.Loaded(DecKeys(ks))
    requires pos + 16 <= input.Length && pos + 16 <= output.Length && iv.Length == 16 && iv !in {input, output}
    requires output !in t.Arrays() && iv !in t.Arrays()
    modifies output, iv
    ensures t.Ready() && ctx.Loaded(DecKeys(ks))
    ensures iv[..] == old(input[pos..pos + 16])
    ensures var p := AddBytes(DecryptBlock(ks, old(input[pos..pos + 16])), old(iv[..]));
            output[..] == old(output[..pos]) + p + old(output[pos + 16..])
    ensures input[pos + 16..] == old(input[pos + 16..])
  {
    hide t.Ready, ctx.Loaded, DecryptBlock, AddBytes, KeyWord, DecKeys;
    var temp := new bv8[16];
    CopyBlock(input, pos, temp);
    ghost var b, rest := input[pos..pos + 16], input[pos + 16..];
    ghost var p := AddBytes(DecryptBlock(ks, b), iv[..]);
    ghost var a, z := output[..pos], output[pos + 16..];
    DecryptXor(t, ctx, iv, input, output, pos, ks);
    Slices(a, p, z, output[..]);
    assert input[pos + 16..] == rest;
    CopyBlock(temp, 0, iv);
  }

  lemma Suffix(now: seq<bv8>, m: seq<bv8>, pos: nat)
    requires pos + 16 <= |m| <= |now| && now[pos..|m|] == m[pos..]
    ensures now[pos..pos + 16] == m[pos..pos + 16]
    ensures now[pos + 16..|m|] == m[pos + 16..]
  {
    assert now[pos..pos + 16] == now[pos..|m|][..16] == m[pos..][..16] == m[pos..pos + 16];
    assert now[pos + 16..|m|] == now[pos..|m|][16..] == m[pos..][16..] == m[pos + 16..];
  }

  lemma SuffixKept(now: seq<bv8>, before: seq<bv8>, pos: nat, length: nat)
    requires pos <= length <= |now| == |before| && now[pos..] == before[pos..]
    ensures now[pos..length] == before[pos..length]
  {
    assert now[pos..][..length - pos] == before[pos..][..length - pos];
  }

  /** Where the decryption loop is after the first pos bytes of the message m. */
  ghost predicate DecryptedTo(ks: seq<State>, v: seq<bv8>, m: seq<bv8>, was: seq<bv8>, pos: nat,
                          input: seq<bv8>, output: seq<bv8>, iv: seq<bv8>)
  {
    && Keys(ks) && |v| == 16 && Whole(m) && pos % 16 == 0
    && pos <= |m| <= |input| && |m| <= |was| && input[pos..|m|] == m[pos..]
    && Written(output, was, CbcDecrypt(ks, v, m[..pos]))
    && iv == NextIv(v, m[..pos])
  }

  lemma DecryptOnwards(ks: seq<State>, v: seq<bv8>, m: seq<bv8>, was: seq<bv8>, pos: nat,
                   input: seq<bv8>, output: seq<bv8>, iv: seq<bv8>, input': seq<bv8>, output': seq<bv8>, iv': seq<bv8>)
    requires DecryptedTo(ks, v, m, was, pos, input, output, iv) && pos + 16 <= |m|
    requires |iv| == 16 && |output| == |was|
    requires |input'| == |input| && input'[pos + 16..] == input[pos + 16..]
    requires iv' == input[pos..pos + 16]
    requires output' == output[..pos] + AddBytes(DecryptBlock(ks, input[pos..pos + 16]), iv) + output[pos + 16..]
    ensures DecryptedTo(ks, v, m, was, pos + 16, input', output', iv')
  {
    hide EncryptBlock, DecryptBlock, AddBytes, CbcEncrypt, CbcDecrypt, NextIv, Written;
    NextBlock(ks, v, m, pos);
    Suffix(input, m, pos);
    SuffixKept(input', input, pos + 16, |m|);
    WriteBlock(output, was, CbcDecrypt(ks, v, m[..pos]), AddBytes(DecryptBlock(ks, input[pos..pos + 16]), iv));
  }

  /** One turn of the decryption loop. */
  method DecryptNext(t: Tables, ctx: AesContext, iv: array<bv8>, input: array<bv8>, output: array<bv8>, pos: nat,
                     ghost ks: seq<State>, ghost v: seq<bv8>, ghost m: seq<bv8>, ghost was: seq<bv8>)
    requires t.Shape() && t.Ready() && Keys(ks) && ctx.Loaded(DecKeys(ks))
    requires DecryptedTo(ks, v, m, was, pos, input[..], output[..], iv[..]) && pos + 16 <= |m|
    requires |m| <= output.Length == |was| && iv.Length == 16 && iv !in {input, output}
    requires output !in t.Arrays() && iv !in t.Arrays()
    modifies output, iv
    ensures t.Ready() && ctx.Loaded(DecKeys(ks))
    ensures DecryptedTo(ks, v, m, was, pos + 16, input[..], output[..], iv[..])
  {
    hide t.Ready, ctx.Loaded, EncryptBlock, DecryptBlock, AddBytes, DecKeys, DecryptedTo;
    ghost var inp, out, chain := input[..], output[..], iv[..];
    MessageFits(ks, v, m, was, pos, inp, out, chain);
    DecryptStep(t, ctx, iv, input, output, pos, ks);
    DecryptOnwards(ks, v, m, was, pos, inp, out, chain, input[..], output[..], iv[..]);
  }

  lemma MessageFits(ks: seq<State>, v: seq<bv8>, m: seq<bv8>, was: seq<bv8>, pos: nat,
                    input: seq<bv8>, output: seq<bv8>, iv: seq<bv8>)
    requires DecryptedTo(ks, v, m, was, pos, input, output, iv)
    ensures |m| <= |input|
  {
    hide CbcDecrypt, Written, NextIv;
  }

  /** The decryption loop. */
  method DecryptLoop(t: Tables, ctx: AesContext, length: nat, iv: array<bv8>, input: array<bv8>, output: array<bv8>,
                     ghost ks: seq<State>)
    requires t.Shape() && t.Ready() && Keys(ks) && ctx.Loaded(DecKeys(ks))
    requires length % 16 == 0 && length <= input.Length && length <= output.Length
    requires iv.Length == 16 && iv !in {input, output}
    requires output !in t.Arrays() && iv !in t.Arrays()
    modifies output, iv
    ensures DecryptedTo(ks, old(iv[..]), old(input[..length]), old(output[..]), length, input[..], output[..], iv[..])
  {
    hide t.Ready, ctx.Loaded, DecKeys, DecryptedTo, KeyWord;
    ghost var v, m, was := iv[..], input[..length], output[..];
    DecryptStart(ks, v, m, was, input[..]);
    var pos := 0;
    while pos < length
      invariant pos <= length && pos % 16 == 0
      invariant t.Ready() && ctx.Loaded(DecKeys(ks))
      invariant DecryptedTo(ks, v, m, was, pos, input[..], output[..], iv[..])
    {
      DecryptNext(t, ctx, iv, input, output, pos, ks, v, m, was);
      pos := pos + 16;
    }
  }

  lemma DecryptStart(ks: seq<State>, v: seq<bv8>, m: seq<bv8>, was: seq<bv8>, input: seq<bv8>)
    requires Keys(ks) && |v| == 16 && Whole(m) && m <= input && |m| <= |was|
    ensures DecryptedTo(ks, v, m, was, 0, input, was, v)
  {
    CbcOfNothing(ks, v, was);
    assert m[..0] == [];
  }

  /** Where the encryption loop is after the first pos bytes of the message m. */
  ghost predicate EncryptedTo(ks: seq<State>, v: seq<bv8>, m: seq<bv8>, was: seq<bv8>, pos: nat,
                          input: seq<bv8>, output: seq<bv8>, iv: seq<bv8>)
  {
    && Keys(ks) && |v| == 16 && Whole(m) && pos % 16 == 0
    && pos <= |m| <= |input| && |m| <= |was| && input[pos..|m|] == m[pos..]
    && Written(output, was, CbcEncrypt(ks, v, m[..pos]))
    && iv == NextIv(v, CbcEncrypt(ks, v, m[..pos]))
  }

  lemma EncryptOnwards(ks: seq<State>, v: seq<bv8>, m: seq<bv8>, was: seq<bv8>, pos: nat,
                   input: seq<bv8>, output: seq<bv8>, iv: seq<bv8>, input': seq<bv8>, output': seq<bv8>, iv': seq<bv8>)
    requires EncryptedTo(ks, v, m, was, pos, input, output, iv) && pos + 16 <= |m|
    requires |iv| == 16 && |output| == |was|
    requires |input'| == |input| && input'[pos + 16..] == input[pos + 16..]
    requires iv' == EncryptBlock(ks, AddBytes(input[pos..pos + 16], iv))
    requires output' == output[..pos] + EncryptBlock(ks, AddBytes(input[pos..pos + 16], iv)) + output[pos + 16..]
    ensures EncryptedTo(ks, v, m, was, pos + 16, input', output', iv')
  {
    hide EncryptBlock, DecryptBlock, AddBytes, CbcEncrypt, CbcDecrypt, NextIv, Written;
    NextBlock(ks, v, m, pos);
    Suffix(input, m, pos);
    SuffixKept(input', input, pos + 16, |m|);
    WriteBlock(output, was, CbcEncrypt(ks, v, m[..pos]), EncryptBlock(ks, AddBytes(input[pos..pos + 16], iv)));
  }

  /** The encryption loop. */
  method EncryptLoop(t: Tables, ctx: AesContext, length: nat, iv: array<bv8>, input: array<bv8>, output: array<bv8>,
                     ghost ks: seq<State>)
    requires t.Shape() && t.Ready() && Keys(ks) && ctx.Loaded(ks)
    requires length % 16 == 0 && length <= input.Length && length <= output.Length
    requires iv.Length == 16 && iv !in {input, output}
    requires output !in t.Arrays() && iv !in t.Arrays()
    modifies output, iv
    ensures EncryptedTo(ks, old(iv[..]), old(input[..length]), old(output[..]), length, input[..], output[..], iv[..])
  {
    hide t.Ready, ctx.Loaded, EncryptBlock, DecryptBlock, AddBytes, DecKeys, EncryptedTo;
    ghost var v, m, was := iv[..], input[..length], output[..];
    EncryptStart(ks, v, m, was, input[..]);
    var pos := 0;
    while pos < length
      invariant pos <= length && pos % 16 == 0
      invariant t.Ready() && ctx.Loaded(ks)
      invariant EncryptedTo(ks, v, m, was, pos, input[..], output[..], iv[..])
    {
      ghost var inp, out, chain := input[..], output[..], iv[..];
      EncryptStep(t, ctx, iv, input, output, pos, ks);
      EncryptOnwards(ks, v, m, was, pos, inp, out, chain, input[..], output[..], iv[..]);
      pos := pos + 16;
    }
  }

  lemma EncryptStart(ks: seq<State>, v: seq<bv8>, m: seq<bv8>, was: seq<bv8>, input: seq<bv8>)
    requires Keys(ks) && |v| == 16 && Whole(m) && m <= input && |m| <= |was|
    ensures EncryptedTo(ks, v, m, was, 0, input, was, v)
  {
    CbcOfNothing(ks, v, was);
    assert m[..0] == [];
  }

  /** utils_aes_crypt_cbc. The buffers are either one buffer or two separate ones: the result is the
      same function of the input in both cases. */
  method CryptCbc(t: Tables, ctx: AesContext, mode: int, length: nat, iv: array<bv8>, input: array<bv8>,
                  output: array<bv8>, ghost ks: seq<State>) returns (ret: int)
    requires t.Shape() && t.Ready() && Keys(ks) && mode in {ENCRYPT, DECRYPT}
    requires ctx.Loaded(if mode == ENCRYPT then ks else DecKeys(ks))
    requires length % 16 == 0 ==> length <= input.Length && length <= output.Length
    requires iv.Length == 16 && iv !in {input, output}
    requires output !in t.Arrays() && iv !in t.Arrays()
    modifies output, iv
    ensures length % 16 != 0 ==> ret == INVALID_INPUT_LENGTH && unchanged(output, iv)
    ensures length % 16 == 0 ==> ret == 0
    ensures length % 16 == 0 && mode == ENCRYPT ==>
              var c := CbcEncrypt(ks, old(iv[..]), old(input[..length]));
              Written(output[..], old(output[..]), c) && iv[..] == NextIv(old(iv[..]), c)
    ensures length % 16 == 0 && mode == DECRYPT ==>
              && Written(output[..], old(output[..]), CbcDecrypt(ks, old(iv[..]), old(input[..length])))
              && iv[..] == NextIv(old(iv[..]), old(input[..length]))
  {
    hide t.Ready, CbcEncrypt, CbcDecrypt, Written, NextIv, DecKeys, ctx.Loaded;
    if length % 16 != 0 {
      return INVALID_INPUT_LENGTH;
    }
    ghost var m := input[..length];
    assert m[..length] == m;
    if mode == DECRYPT {
      DecryptLoop(t, ctx, length, iv, input, output, ks);
    } else {
      EncryptLoop(t, ctx, length, iv, input, output, ks);
    }
    ret := 0;
  }

  lemma CbcOfNothing(ks: seq<State>, iv: seq<bv8>, was: seq<bv8>)
    requires Keys(ks) && |iv| == 16
    ensures CbcEncrypt(ks, iv, []) == [] && CbcDecrypt(ks, iv, []) == []
    ensures NextIv(iv, []) == iv && Written(was, was, [])
  {}
}
