/** utils_aes_cbc and its consumer aes_decode: padding, cutting at NUL, and trimming. */
module AesDecode {
  import opened Bytes
  import opened Wrappers
  import opened AesField
  import opened AesCipher
  import opened AesTables
  import opened AesKeys
  import opened AesCbc

  /** padlen of utils_aes_cbc: always at least one byte. */
  function PadLength(n: nat): (p: nat)
    ensures 1 <= p <= 16 && (n + p) % 16 == 0
  {
    16 - n % 16
  }

  function ZeroPadded(p: seq<bv8>): (m: seq<bv8>)
    ensures Whole(m)
  {
    p + Zeros(PadLength(|p|))
  }

  /** What utils_aes_cbc encrypts. The zero padding is written to the output buffer, but
      utils_aes_crypt_cbc reads the input buffer: they are the same only when the call is in place. */
  function Encrypted(inPlace: bool, input: seq<bv8>, n: nat): (m: seq<bv8>)
    requires n + PadLength(n) <= |input|
    ensures Whole(m)
  {
    if inPlace then ZeroPadded(input[..n]) else input[..n + PadLength(n)]
  }

  /** The documented zero padding is what gets encrypted if and only if the call is in place or the
      input buffer happens to hold zeros after the data. */
  lemma ZeroPaddingReached(ks: seq<State>, iv: seq<bv8>, inPlace: bool, input: seq<bv8>, n: nat)
    requires Keys(ks) && |iv| == 16 && n + PadLength(n) <= |input|
    ensures CbcEncrypt(ks, iv, Encrypted(inPlace, input, n)) == CbcEncrypt(ks, iv, ZeroPadded(input[..n]))
       <==> inPlace || forall k :: n <= k < n + PadLength(n) ==> input[k] == 0
  {
    hide CbcEncrypt;
    CbcInjective(ks, iv, Encrypted(inPlace, input, n), ZeroPadded(input[..n]));
    var m := n + PadLength(n);
    if forall k :: n <= k < m ==> input[k] == 0 {
      assert input[..m] == input[..n] + Zeros(PadLength(n));
    }
    if input[..m] == ZeroPadded(input[..n]) {
      forall k | n <= k < m
        ensures input[k] == 0
      {
        assert input[..m][k] == Zeros(PadLength(n))[k - n];
      }
    }
  }

  /** memcpy(to, from, n), and memset(to + n, 0, z). */
  method CopyAndZero(from: array<bv8>, to: array<bv8>, n: nat, z: nat)
    requires n <= from.Length && n + z <= to.Length
    modifies to
    ensures Written(to[..], old(to[..]), old(from[..n]) + Zeros(z))
  {
    hide Zeros;
    ghost var was, m := to[..], from[..n];
    for i := 0 to n
      invariant forall k :: 0 <= k < i ==> to[k] == m[k]
      invariant forall k :: i <= k < |was| ==> to[k] == was[k]
      invariant forall k :: i <= k < n ==> from[k] == m[k]
    {
      to[i] := from[i];
    }
    for i := 0 to z
      invariant forall k :: 0 <= k < n ==> to[k] == m[k]
      invariant forall k :: n <= k < n + i ==> to[k] == 0
      invariant forall k :: n + i <= k < |was| ==> to[k] == was[k]
    {
      to[n + i] := 0;
    }
    CopiedAndZeroed(to[..], was, m, z);
  }

  lemma CopiedAndZeroed(now: seq<bv8>, was: seq<bv8>, m: seq<bv8>, z: nat)
    requires |now| == |was| && |m| + z <= |was|
    requires forall k :: 0 <= k < |m| ==> now[k] == m[k]
    requires forall k :: |m| <= k < |m| + z ==> now[k] == 0
    requires forall k :: |m| + z <= k < |was| ==> now[k] == was[k]
    ensures Written(now, was, m + Zeros(z))
  {}

  /** The number of key words for a key size, and the round keys it stands for. */
  predicate KeyBits(keybits: int) {
    keybits in {128, 192, 256}
  }

  ghost function Schedule(key: seq<bv8>, keybits: int): (ks: seq<State>)
    requires KeyBits(keybits) && keybits <= 8 * |key|
    ensures Keys(ks)
  {
    RoundKeys(key, keybits / 32)
  }

  lemma Overwritten(now: seq<bv8>, mid: seq<bv8>, was: seq<bv8>, m: seq<bv8>, c: seq<bv8>)
    requires Written(mid, was, m) && |c| == |m| && Written(now, mid, c)
    ensures Written(now, was, c)
  {}

  /** The encryption branch of utils_aes_cbc, from the padding on. */
  method PadAndEncrypt(t: Tables, ctx: AesContext, input: array<bv8>, datalen: nat, output: array<bv8>, iv: array<bv8>,
                       ghost ks: seq<State>) returns (ret: int)
    requires t.Shape() && t.Ready() && Keys(ks) && ctx.Loaded(ks)
    requires datalen + PadLength(datalen) <= input.Length && datalen + PadLength(datalen) <= output.Length
    requires iv.Length == 16 && iv !in {input, output} && output !in t.Arrays() && iv !in t.Arrays()
    modifies output, iv
    ensures ret == 0
    ensures var c := CbcEncrypt(ks, old(iv[..]), Encrypted(input == output, old(input[..]), datalen));
            Written(output[..], old(output[..]), c) && iv[..] == NextIv(old(iv[..]), c)
  {
    hide CbcEncrypt, CbcDecrypt, RoundKeys, DecKeys, KeyWord, t.Ready;
    var padlen := PadLength(datalen);
    ghost var was, m := output[..], input[..];
    CopyAndZero(input, output, datalen, padlen);
    var length := datalen + padlen;
    if input == output {
      assert input[..length] == m[..datalen] + Zeros(padlen);
    }
    assert input[..length] == Encrypted(input == output, m, datalen);
    ghost var mid, c := output[..], CbcEncrypt(ks, iv[..], input[..length]);
    ret := CryptCbc(t, ctx, ENCRYPT, length, iv, input, output, ks);
    Overwritten(output[..], mid, was, m[..datalen] + Zeros(padlen), c);
  }

  /** The call is refused: the key length, or the size checks. Decryption does not look at outBuffLen. */
  predicate Refused(datalen: nat, outBuffLen: nat, mode: int, keybits: int) {
    || !KeyBits(keybits)
    || (mode == ENCRYPT && outBuffLen < (datalen + 16) % TWO_32)
    || (mode == DECRYPT && datalen % 16 != 0)
  }

  /** A call that is not refused touches more bytes than the buffers have: encryption reads the input
      and writes the output up to the padded length, decryption up to the length. */
  predicate Overruns(datalen: nat, outBuffLen: nat, mode: int, inSize: nat, outSize: nat) {
    if mode == ENCRYPT then datalen + PadLength(datalen) > inSize || datalen + PadLength(datalen) > outBuffLen
    else datalen > inSize || datalen > outSize
  }

  /** utils_aes_cbc. Where the source would leave the buffers, the model stops with overrun. */
  method AesCbcCall(t: Tables, input: array<bv8>, datalen: nat, output: array<bv8>, outBuffLen: nat, mode: int,
                    key: seq<bv8>, keybits: int, iv: array<bv8>) returns (ret: int, overrun: bool)
    requires t.Valid() && mode in {ENCRYPT, DECRYPT}
    requires KeyBits(keybits) ==> keybits <= 8 * |key|
    requires datalen < TWO_32 && outBuffLen < TWO_32 && (mode == ENCRYPT ==> outBuffLen <= output.Length)
    requires iv.Length == 16 && iv !in {input, output}
    requires input !in t.Arrays() && output !in t.Arrays() && iv !in t.Arrays()
    modifies t.Repr(), output, iv
    ensures t.Valid()
    ensures ret == if Refused(datalen, outBuffLen, mode, keybits) then -1 else 0
    ensures overrun <==> ret == 0 && Overruns(datalen, outBuffLen, mode, input.Length, output.Length)
    ensures ret != 0 || overrun ==> unchanged(output, iv)
    ensures ret == 0 && !overrun && mode == ENCRYPT ==>
              var m := Encrypted(input == output, old(input[..]), datalen);
              var c := CbcEncrypt(Schedule(key, keybits), old(iv[..]), m);
              Written(output[..], old(output[..]), c) && iv[..] == NextIv(old(iv[..]), c)
    ensures ret == 0 && !overrun && mode == DECRYPT ==>
              var c := old(input[..datalen]);
              var m := CbcDecrypt(Schedule(key, keybits), old(iv[..]), c);
              Written(output[..], old(output[..]), m) && iv[..] == NextIv(old(iv[..]), c)
  {
    hide CbcEncrypt, CbcDecrypt, RoundKeys, DecKeys, KeyWord, t.Ready, t.Shape, Written, NextIv, Encrypted,
         AesContext.Loaded;
    var ctx := new AesContext();
    var r;
    if mode == ENCRYPT {
      r := ctx.SetKeyEnc(t, key, keybits);
      if r != 0 {
        return -1, false;
      }
      if outBuffLen < (datalen + 16) % TWO_32 {
        return -1, false;
      }
      if datalen + PadLength(datalen) > input.Length || datalen + PadLength(datalen) > outBuffLen {
        return 0, true;
      }
      r := PadAndEncrypt(t, ctx, input, datalen, output, iv, Schedule(key, keybits));
    } else {
      r := ctx.SetKeyDec(t, key, keybits);
      if r != 0 {
        return -1, false;
      }
      if datalen % 16 == 0 && (datalen > input.Length || datalen > output.Length) {
        return 0, true;
      }
      r := CryptCbc(t, ctx, DECRYPT, datalen, iv, input, output, Schedule(key, keybits));
    }
    ret, overrun := if r != 0 then -1 else 0, false;
  }

  // ---------- aes_decode ----------

  /** url_trim */
  predicate UrlTrim(ch: bv8) {
    if ch < 32 then true
    else ch == 0x20 || ch == 0x09 || ch == 0x0A || ch == 0x0B || ch == 0x0C || ch == 0x0D || ch == 0x07
  }

  /** The bytes of a C string in b, up to the first NUL. */
  function CString(b: seq<bv8>): seq<bv8> {
    if b == [] || b[0] == 0 then [] else [b[0]] + CString(b[1..])
  }

  /** aws_byte_cursor_right_trim_pred with url_trim. */
  function RightTrim(b: seq<bv8>): seq<bv8> {
    if b != [] && UrlTrim(b[|b| - 1]) then RightTrim(b[..|b| - 1]) else b
  }

  predicate NulFree(b: seq<bv8>) {
    forall k :: 0 <= k < |b| ==> b[k] != 0
  }

  /** A padding every byte of which url_trim accepts: zeros, or the 1..16-valued padding of
      section 6.3 of RFC 5652. */
  predicate Trimmable(pad: seq<bv8>) {
    forall k :: 0 <= k < |pad| ==> pad[k] <= 32
  }

  /** A text that survives the trimming: no NUL, and no trailing byte up to the space. */
  predicate Clean(p: seq<bv8>) {
    NulFree(p) && (p == [] || p[|p| - 1] > 32)
  }

  lemma UrlTrimIs(ch: bv8)
    ensures UrlTrim(ch) <==> ch <= 32
  {}

  lemma {:induction false} CStringOfNulFree(p: seq<bv8>, q: seq<bv8>)
    requires NulFree(p)
    ensures CString(p + q) == p + CString(q)
  {
    if p == [] {
      assert p + q == q;
    } else {
      assert (p + q)[1..] == p[1..] + q;
      CStringOfNulFree(p[1..], q);
    }
  }

  lemma {:induction false} CStringShorter(p: seq<bv8>, q: seq<bv8>)
    requires !NulFree(p)
    ensures |CString(p + q)| < |p|
  {
    if p[0] != 0 {
      assert (p + q)[1..] == p[1..] + q;
      CStringShorter(p[1..], q);
    }
  }

  lemma {:induction false} CStringPrefix(b: seq<bv8>)
    ensures CString(b) <= b
  {
    if b != [] && b[0] != 0 {
      CStringPrefix(b[1..]);
    }
  }

  lemma {:induction false} RightTrimLength(b: seq<bv8>)
    ensures |RightTrim(b)| <= |b|
  {
    if b != [] && UrlTrim(b[|b| - 1]) {
      RightTrimLength(b[..|b| - 1]);
    }
  }

  lemma {:induction false} RightTrimPad(p: seq<bv8>, pad: seq<bv8>)
    requires Trimmable(pad)
    ensures RightTrim(p + pad) == RightTrim(p)
    decreases |pad|
  {
    if pad == [] {
      assert p + pad == p;
    } else {
      UrlTrimIs(pad[|pad| - 1]);
      assert (p + pad)[..|p + pad| - 1] == p + pad[..|pad| - 1];
      RightTrimPad(p, pad[..|pad| - 1]);
    }
  }

  /** Cutting and trimming a padded text gives back the text exactly when the text is clean. */
  lemma TrimUndoesPadding(p: seq<bv8>, pad: seq<bv8>)
    requires Trimmable(pad)
    ensures RightTrim(CString(p + pad)) == p <==> Clean(p)
  {
    if NulFree(p) {
      CStringOfNulFree(p, pad);
      CStringPrefix(pad);
      RightTrimPad(p, CString(pad));
      if p != [] {
        UrlTrimIs(p[|p| - 1]);
        RightTrimLength(p[..|p| - 1]);
      }
    } else {
      CStringShorter(p, pad);
      RightTrimLength(CString(p + pad));
    }
  }

  /** What aes_decode returns for a decoded ciphertext of whole blocks, with the key bits and the
      vector it takes from the secret. */
  ghost function Decoded(secret: seq<bv8>, partial: bool, cipher: seq<bv8>): seq<bv8>
    requires Whole(cipher) && SecretFits(secret, partial)
  {
    RightTrim(CString(Decrypted(secret, partial, cipher)))
  }

  ghost function Decrypted(secret: seq<bv8>, partial: bool, cipher: seq<bv8>): seq<bv8>
    requires Whole(cipher) && SecretFits(secret, partial)
  {
    CbcDecrypt(DecodeKeys(secret, partial), secret[..16], cipher)
  }

  /** The secret has the 16 bytes a partial secret copies, or the 24 a 192-bit key reads. */
  predicate SecretFits(secret: seq<bv8>, partial: bool) {
    |secret| >= if partial then 16 else 24
  }

  ghost function DecodeKeys(secret: seq<bv8>, partial: bool): (ks: seq<State>)
    requires SecretFits(secret, partial)
    ensures Keys(ks)
  {
    Schedule(if partial then secret[..16] else secret, if partial then 128 else 192)
  }

  /** Encrypting a padded text and decoding it returns the text if and only if it is clean: the key has
      192 bits for a full secret, and is the first 128 bits of a partial one; the vector is the first 16
      bytes. Zero padding by utils_aes_cbc and RFC 5652 padding are both instances. */
  lemma DecodeRecovers(secret: seq<bv8>, partial: bool, p: seq<bv8>, pad: seq<bv8>)
    requires SecretFits(secret, partial) && Whole(p + pad) && Trimmable(pad)
    ensures var ks := if partial then RoundKeys(secret[..16], 4) else RoundKeys(secret, 6);
            Decoded(secret, partial, CbcEncrypt(ks, secret[..16], p + pad)) == p <==> Clean(p)
  {
    hide CbcEncrypt, CbcDecrypt, RoundKeys, CString, RightTrim, Clean;
    CbcDecryptOfEncrypt(DecodeKeys(secret, partial), secret[..16], p + pad);
    TrimUndoesPadding(p, pad);
  }

  lemma ZerosTrimmable(n: nat)
    ensures Trimmable(Zeros(n))
  {}

  /** The in-place ciphertext of utils_aes_cbc decodes to its plaintext exactly when that is clean. */
  lemma DecodeOfAesCbc(secret: seq<bv8>, partial: bool, input: seq<bv8>, n: nat)
    requires SecretFits(secret, partial) && n + PadLength(n) <= |input|
    ensures var ks := if partial then RoundKeys(secret[..16], 4) else RoundKeys(secret, 6);
            var c := CbcEncrypt(ks, secret[..16], Encrypted(true, input, n));
            Decoded(secret, partial, c) == input[..n] <==> Clean(input[..n])
  {
    hide CbcEncrypt, Decoded, Clean, RoundKeys;
    ZerosTrimmable(PadLength(n));
    DecodeRecovers(secret, partial, input[..n], Zeros(PadLength(n)));
  }

  /** What aes_decode does: NULL, a text, or a step outside its 512-byte buffer. */
  datatype DecodeResult = Failed | Text(text: seq<bv8>) | Overrun

  /** aes_decode, from the base64-decoded ciphertext on. It leaves its buffer exactly for more than 512
      bytes, or for 512 bytes that decrypt to a text without NUL. */
  method AesDecodeCall(t: Tables, secret: seq<bv8>, partial: bool, cipher: array<bv8>) returns (result: DecodeResult)
    requires t.Valid() && SecretFits(secret, partial) && cipher.Length < TWO_32
    requires cipher !in t.Arrays()
    modifies t.Repr()
    ensures result ==
            if cipher.Length % 16 != 0 then Failed
            else if cipher.Length < 512
                    || (cipher.Length == 512 && !NulFree(Decrypted(secret, partial, cipher[..]))) then
              Text(Decoded(secret, partial, cipher[..]))
            else Overrun
  {
    hide CbcEncrypt, CbcDecrypt, Schedule, t.Ready;
    var key := secret;
    var keyBits := 192;
    if partial {
      key := secret[..16];
      keyBits := 128;
    }
    var iv := new bv8[16](i requires 0 <= i < 16 => secret[i]);
    assert iv[..] == secret[..16];
    var decodeBuff := new bv8[512](_ => 0);
    ghost var c, zeros := cipher[..], decodeBuff[..];
    assert cipher[..cipher.Length] == c;
    var ret, overrun := AesCbcCall(t, cipher, cipher.Length, decodeBuff, 512, DECRYPT, key, keyBits, iv);
    if ret != 0 {
      return Failed;
    }
    if overrun {
      return Overrun;
    }
    ghost var m := Decrypted(secret, partial, c);
    DecodeBuffer(decodeBuff[..], zeros, m);
    if 0 !in decodeBuff[..] {
      return Overrun;
    }
    result := Text(RightTrim(CString(decodeBuff[..])));
  }

  /** The buffer holds a NUL, and the string up to it is that of the text, unless the text fills it
      without a NUL. */
  lemma DecodeBuffer(now: seq<bv8>, was: seq<bv8>, m: seq<bv8>)
    requires Written(now, was, m) && |m| <= |was| && forall k :: 0 <= k < |was| ==> was[k] == 0
    ensures 0 in now <==> |m| < |was| || !NulFree(m)
    ensures CString(now) == CString(m)
  {
    if |m| < |was| {
      StrictPrefix(now, was, m);
      TerminatedString(now, m);
      assert now[|m|] in now;
    } else {
      assert now == m;
    }
  }

  lemma StrictPrefix(now: seq<bv8>, was: seq<bv8>, m: seq<bv8>)
    requires Written(now, was, m) && |m| < |was|
    ensures m < now && now[|m|] == was[|m|]
  {}

  /** The zeroed rest of the buffer terminates the string. */
  lemma {:induction false} TerminatedString(b: seq<bv8>, m: seq<bv8>)
    requires m < b && b[|m|] == 0
    ensures CString(b) == CString(m)
  {
    if m != [] && m[0] != 0 {
      assert b == m + b[|m|..];
      assert b[1..] == m[1..] + b[|m|..];
      TerminatedString(b[1..], m[1..]);
    }
  }
}
