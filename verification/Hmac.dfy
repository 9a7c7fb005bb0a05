/** src/util/hmac_sha256.c against section 2 of RFC 2104. */
module Hmac {
  import opened Bytes
  import opened Sha256Spec
  import opened Sha256Impl

  // ---------- section 2 of RFC 2104 ----------

  /** Step 1: the key, or its digest if it is longer than a block, extended with zeros to 64 bytes. */
  function BlockKey(key: seq<bv8>): (k: seq<bv8>)
    ensures |k| == 64
  {
    if |key| > 64 then Sha256(key) + Zeros(32) else key + Zeros(64 - |key|)
  }

  function XorByte(a: bv8, b: bv8): bv8 {
    a ^ b
  }

  /** Steps 2 and 5. */
  function XorEach(k: seq<bv8>, pad: bv8): (r: seq<bv8>)
    ensures |r| == |k|
  {
    seq(|k|, i requires 0 <= i < |k| => XorByte(pad, k[i]))
  }

  function HmacSpec(key: seq<bv8>, text: seq<bv8>): (r: seq<bv8>)
    ensures |r| == 32
  {
    Sha256(XorEach(BlockKey(key), 0x5c) + Sha256(XorEach(BlockKey(key), 0x36) + text))
  }

  // ---------- the code ----------

  /** What Sha256Update sees of a buffer: its BufferSize parameter has 32 bits. */
  function Low32(data: seq<bv8>): (low: seq<bv8>)
    ensures |low| < TWO_32
  {
    data[..|data| % TWO_32]
  }

  function CodeBlockKey(key: seq<bv8>): (k: seq<bv8>)
    ensures |k| == 64
  {
    if |key| > 64 then Sha256(Low32(key)) + Zeros(32) else key + Zeros(64 - |key|)
  }

  function CodeHmac(key: seq<bv8>, data: seq<bv8>): (r: seq<bv8>)
    ensures |r| == 32
  {
    Sha256(XorEach(CodeBlockKey(key), 0x5c) + Sha256(Low32(XorEach(CodeBlockKey(key), 0x36) + data)))
  }

  /** memcpy(to, from, n) */
  method CopyTo(from: seq<bv8>, to: array<bv8>, n: nat)
    requires n <= |from| && n <= to.Length
    modifies to
    ensures to[..] == from[..n] + old(to[n..])
  {
    for i := 0 to n
      invariant to[..i] == from[..i] && to[i..] == old(to[i..])
    {
      to[i] := from[i];
      assert to[..i + 1] == to[..i] + [from[i]];
    }
    assert to[..] == to[..n] + to[n..];
  }

  /** The wrapper sha256. */
  method Sha256Into(data: seq<bv8>, out: array<bv8>, outlen: nat)
    requires outlen <= out.Length
    modifies out
    ensures var sz := if outlen > 32 then 32 else outlen;
            out[..] == Sha256(Low32(data))[..sz] + old(out[sz..])
  {
    hide *;
    var ctx := new Sha256Context();
    var hash := new bv8[32];
    ctx.Update(Low32(data));
    assert [] + Low32(data) == Low32(data);
    ctx.Finalise(hash);
    var sz := if outlen > 32 then 32 else outlen;
    CopyTo(hash[..], out, sz);
  }

  /** H: the digest of x followed by y, through one buffer. */
  method HashBoth(x: seq<bv8>, y: seq<bv8>, out: array<bv8>)
    requires out.Length == 32
    modifies out
    ensures out[..] == Sha256(Low32(x + y))
  {
    hide Sha256;
    var buf := new bv8[|x| + |y|];
    CopyTo(x, buf, |x|);
    CopyAt(y, buf, |x|);
    assert buf[..] == x + y;
    Sha256Into(buf[..], out, 32);
    assert Sha256(Low32(x + y))[..32] == Sha256(Low32(x + y));
  }

  /** memcpy(to + o, from, |from|) */
  method CopyAt(from: seq<bv8>, to: array<bv8>, o: nat)
    requires o + |from| == to.Length
    modifies to
    ensures to[..] == old(to[..o]) + from
  {
    for i := 0 to |from|
      invariant to[..o] == old(to[..o])
      invariant forall j: nat :: j < i ==> to[o + j] == from[j]
    {
      to[o + i] := from[i];
    }
    assert to[o..] == from;
    assert to[..] == to[..o] + to[o..];
  }

  /** The memset and the xor loop for one of k_ipad and k_opad. */
  method XorPad(k: array<bv8>, pad: bv8) returns (r: array<bv8>)
    requires k.Length == 64
    ensures fresh(r) && r.Length == 64 && r[..] == XorEach(k[..], pad)
  {
    hide XorByte;
    r := new bv8[64](_ => pad);
    for i := 0 to 64
      invariant forall j: nat :: j < i ==> r[j] == XorByte(pad, k[j])
      invariant forall j: nat :: i <= j < 64 ==> r[j] == pad
    {
      r[i] := XorByte(r[i], k[i]);
    }
    assert r[..] == XorEach(k[..], pad);
  }

  /** onesdk_hmac_sha256 */
  method HmacSha256(key: seq<bv8>, data: seq<bv8>, out: array<bv8>, outlen: nat) returns (sz: nat)
    requires outlen <= out.Length
    modifies out
    ensures sz == if outlen > 32 then 32 else outlen
    ensures out[..] == CodeHmac(key, data)[..sz] + old(out[sz..])
  {
    hide Sha256, XorEach;
    var k := new bv8[64](_ => 0);
    assert k[..] == Zeros(64);
    if |key| > 64 {
      Sha256Into(key, k, 64);
      assert k[..] == Sha256(Low32(key)) + Zeros(32);
    } else {
      CopyTo(key, k, |key|);
      assert k[..] == key + Zeros(64 - |key|);
    }
    var ipad := XorPad(k, 0x36);
    var opad := XorPad(k, 0x5c);
    var ihash, ohash := new bv8[32], new bv8[32];
    HashBoth(ipad[..], data, ihash);
    HashBoth(opad[..], ihash[..], ohash);
    sz := if outlen > 32 then 32 else outlen;
    SmallInput(opad[..] + ihash[..]);
    CopyTo(ohash[..], out, sz);
  }

  lemma SmallInput(b: seq<bv8>)
    requires |b| < TWO_32
    ensures Low32(b) == b
  {}

  /** What section 2 of RFC 2104 hashes, call by call: a key longer than a block, the inner text and
      the outer text. */
  function HashCalls(key: seq<bv8>, text: seq<bv8>): seq<seq<bv8>> {
    var inner := XorEach(BlockKey(key), 0x36) + text;
    (if |key| > 64 then [key] else []) + [inner] + [XorEach(BlockKey(key), 0x5c) + Sha256(inner)]
  }

  /** What Sha256Update sees in the code's calls. */
  function CodeHashCalls(key: seq<bv8>, data: seq<bv8>): seq<seq<bv8>> {
    var inner := Low32(XorEach(CodeBlockKey(key), 0x36) + data);
    (if |key| > 64 then [Low32(key)] else []) + [inner] + [Low32(XorEach(CodeBlockKey(key), 0x5c) + Sha256(inner))]
  }

  lemma LastTwo(c: seq<seq<bv8>>, a: seq<bv8>, b: seq<bv8>)
    ensures var s := c + [a] + [b]; s[|s| - 1] == b && s[|s| - 2] == a && s[..|s| - 2] == c
  {}

  lemma SmallExactly(b: seq<bv8>)
    ensures Low32(b) == b <==> |b| < TWO_32
  {
    if |b| < TWO_32 {
      SmallInput(b);
    }
  }

  /** The bytes that reach the hash calls are those of RFC 2104 if and only if the sizes fit the 32-bit
      parameter; then the code's MAC is HMAC. */
  lemma CodeIsHmac(key: seq<bv8>, data: seq<bv8>)
    ensures CodeHashCalls(key, data) == HashCalls(key, data) <==> |key| < TWO_32 && 64 + |data| < TWO_32
    ensures |key| < TWO_32 && 64 + |data| < TWO_32 ==> CodeHmac(key, data) == HmacSpec(key, data)
  {
    hide Sha256, XorEach, Low32;
    var inner, codeInner := XorEach(BlockKey(key), 0x36) + data, XorEach(CodeBlockKey(key), 0x36) + data;
    SmallExactly(key);
    SmallExactly(codeInner);
    SmallExactly(XorEach(CodeBlockKey(key), 0x5c) + Sha256(Low32(codeInner)));
    LastTwo(if |key| > 64 then [key] else [], inner, XorEach(BlockKey(key), 0x5c) + Sha256(inner));
    LastTwo(if |key| > 64 then [Low32(key)] else [], Low32(codeInner),
            Low32(XorEach(CodeBlockKey(key), 0x5c) + Sha256(Low32(codeInner))));
    if CodeHashCalls(key, data) == HashCalls(key, data) {
      CallsApart(key, data);
    }
  }

  lemma CallsApart(key: seq<bv8>, data: seq<bv8>)
    requires CodeHashCalls(key, data) == HashCalls(key, data)
    ensures |key| > 64 ==> Low32(key) == key
    ensures |Low32(XorEach(CodeBlockKey(key), 0x36) + data)| == 64 + |data|
  {
    hide Sha256, XorEach, Low32;
    var a, b := CodeHashCalls(key, data), HashCalls(key, data);
    assert |key| > 64 ==> a[0] == Low32(key) && b[0] == key;
    assert a[|a| - 2] == Low32(XorEach(CodeBlockKey(key), 0x36) + data);
    assert b[|b| - 2] == XorEach(BlockKey(key), 0x36) + data;
  }

  /** In the code, a key longer than a block acts as the digest of what the hash sees of it. */
  lemma LongKeyIsItsDigest(key: seq<bv8>, data: seq<bv8>)
    requires |key| > 64
    ensures CodeHmac(key, data) == CodeHmac(Sha256(Low32(key)), data)
  {
    hide Sha256, XorEach, Low32;
  }

  /** In the code, a key of at most 64 bytes acts as any extension of it with zeros up to 64 bytes. */
  lemma ZeroExtendedKey(key: seq<bv8>, n: nat, data: seq<bv8>)
    requires |key| + n <= 64
    ensures CodeHmac(key + Zeros(n), data) == CodeHmac(key, data)
  {
    hide Sha256, XorEach, Low32;
    assert key + Zeros(n) + Zeros(64 - |key| - n) == key + Zeros(64 - |key|);
  }

  // ---------- what the pads are ----------

  /** Bit m of the sum is set if and only if it is set in one of the two bytes but not in both. */
  lemma XorBit(a: bv8, b: bv8, m: bv8)
    requires m in {1, 2, 4, 8, 16, 32, 64, 128}
    ensures XorByte(a, b) & m != 0 <==> (a & m != 0) != (b & m != 0)
  {}

  /** The bits of the pad are flipped in every byte. */
  lemma XorEachBit(k: seq<bv8>, pad: bv8, i: nat, m: bv8)
    requires i < |k| && m in {1, 2, 4, 8, 16, 32, 64, 128}
    ensures XorEach(k, pad)[i] & m != 0 <==> (k[i] & m != 0) != (pad & m != 0)
  {
    hide XorByte;
    XorBit(pad, k[i], m);
  }

  lemma PadBytes()
    ensures XorByte(0x36, 0x4a) == 0x7c && XorByte(0x36, 0x65) == 0x53 && XorByte(0x36, 0x66) == 0x50
    ensures XorByte(0x5c, 0x4a) == 0x16 && XorByte(0x5c, 0x65) == 0x39 && XorByte(0x5c, 0x66) == 0x3a
    ensures XorByte(0x36, 0) == 0x36 && XorByte(0x5c, 0) == 0x5c
  {}

  /** HMAC under the key "Jefe" of the examples in RFC 2104, for every text. */
  lemma HmacOfJefe(text: seq<bv8>)
    ensures HmacSpec([0x4a, 0x65, 0x66, 0x65], text) ==
            Sha256([0x16, 0x39, 0x3a, 0x39] + seq(60, _ => 0x5c)
                   + Sha256([0x7c, 0x53, 0x50, 0x53] + seq(60, _ => 0x36) + text))
  {
    hide Sha256, XorByte;
    PadBytes();
    var k := BlockKey([0x4a, 0x65, 0x66, 0x65]);
    assert XorEach(k, 0x5c) == [0x16, 0x39, 0x3a, 0x39] + seq(60, _ => 0x5c);
    assert XorEach(k, 0x36) == [0x7c, 0x53, 0x50, 0x53] + seq(60, _ => 0x36);
  }
}
