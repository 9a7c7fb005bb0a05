/** src/util/sha256.c: the buffering context and its compression loop. */
module Sha256Impl {
  import opened Bytes
  import opened BlockHash
  import opened Sha256Spec

  // ---------- the rewritten functions ----------

  /** The macro Ch. */
  function FastCh(x: Word, y: Word, z: Word): Word { z ^ (x & (y ^ z)) }

  /** The macro Maj. */
  function FastMaj(x: Word, y: Word, z: Word): Word { ((x | y) & z) | (x & y) }

  lemma FastChIsCh(x: Word, y: Word, z: Word)
    ensures FastCh(x, y, z) == Ch(x, y, z)
  {
    assert z ^ (x & (y ^ z)) == (x & y) ^ (!x & z);
  }

  lemma FastMajIsMaj(x: Word, y: Word, z: Word)
    ensures FastMaj(x, y, z) == Maj(x, y, z)
  {
    assert ((x | y) & z) | (x & y) == (x & y) ^ (x & z) ^ (y & z);
  }

  /** t0 and t1 of the macro Sha256Round. */
  function T0(e: Word, f: Word, g: Word, h: Word, k: Word, w: Word): Word {
    Plus(Plus(Plus(Plus(h, BigSigma1(e)), FastCh(e, f, g)), k), w)
  }

  function T1(a: Word, b: Word, c: Word): Word {
    Plus(BigSigma0(a), FastMaj(a, b, c))
  }

  function VarsOf(s: seq<Word>): Vars
    requires |s| == 8
  {
    Vars(s[0], s[1], s[2], s[3], s[4], s[5], s[6], s[7])
  }

  lemma RoundByMacro(v: Vars, k: Word, w: Word)
    ensures var t0, t1 := T0(v.e, v.f, v.g, v.h, k, w), T1(v.a, v.b, v.c);
            Round(v, k, w) == Vars(Plus(t0, t1), v.a, v.b, v.c, Plus(v.d, t0), v.e, v.f, v.g)
  {
    hide Ch, Maj, FastCh, FastMaj, Plus, BigSigma0, BigSigma1;
    FastChIsCh(v.e, v.f, v.g);
    FastMajIsMaj(v.a, v.b, v.c);
  }

  /** The 64-bit bit counter after n bytes, and its wrapping addition. */
  function BitCount(n: nat): nat {
    8 * n % TWO_64
  }

  function AddLength(length: nat, bits: nat): nat {
    (length + bits) % TWO_64
  }

  class Sha256Context {
    /** Bits already compressed, modulo 2^64. */
    var length: nat
    const state: array<Word>
    var curlen: nat
    const buf: array<bv8>
    /** The bytes absorbed since the initialisation. */
    ghost var msg: seq<bv8>

    ghost predicate Shape()
      reads this
    {
      state.Length == 8 && buf.Length == 64 && curlen <= 64
    }

    ghost predicate Valid()
      reads this, state, buf
    {
      && Shape() && curlen < 64 && curlen <= |msg|
      && Absorbed(Compress, INITIAL, msg, VarsOf(state[..]), buf[..curlen])
      && length == BitCount(|msg| - curlen)
    }

    /** Sha256Initialise */
    constructor ()
      ensures Valid() && msg == []
      ensures fresh(state) && fresh(buf)
    {
      length, curlen := 0, 0;
      state := new Word[8] [0x6A09E667, 0xBB67AE85, 0x3C6EF372, 0xA54FF53A,
                            0x510E527F, 0x9B05688C, 0x1F83D9AB, 0x5BE0CD19];
      buf := new bv8[64];
      msg := [];
      new;
      AbsorbedNothing(Compress, INITIAL);
      assert VarsOf(state[..]) == INITIAL;
      assert buf[..0] == [];
    }

    /** The first two loops of TransformFunction: the message schedule. */
    method FillSchedule(block: Block) returns (W: array<Word>)
      ensures fresh(W) && W.Length == 64
      ensures forall t: nat :: t < 64 ==> W[t] == Schedule(block, t)
    {
      hide BigEndian, Plus, SmallSigma0, SmallSigma1;
      W := new Word[64];
      for i := 0 to 16
        invariant forall t: nat :: t < i ==> W[t] == Schedule(block, t)
      {
        W[i] := BigEndian(block, 4 * i);
      }
      for i := 16 to 64
        invariant forall t: nat :: t < i ==> W[t] == Schedule(block, t)
      {
        W[i] := Plus(Plus(Plus(SmallSigma1(W[i - 2]), W[i - 7]), SmallSigma0(W[i - 15])), W[i - 16]);
      }
    }

    /** One iteration of the compression loop: the macro updates S[3] and S[7], then S is rotated. */
    static method RotatingRound(S: array<Word>, k: Word, w: Word)
      requires S.Length == 8
      modifies S
      ensures VarsOf(S[..]) == Round(old(VarsOf(S[..])), k, w)
    {
      hide T0, T1, Plus, Round;
      ghost var v := VarsOf(S[..]);
      assert v == Vars(S[0], S[1], S[2], S[3], S[4], S[5], S[6], S[7]);
      RoundByMacro(v, k, w);
      var t0 := T0(S[4], S[5], S[6], S[7], k, w);
      var t1 := T1(S[0], S[1], S[2]);
      S[3] := Plus(S[3], t0);
      S[7] := Plus(t0, t1);
      var t := S[7];
      S[7] := S[6];
      S[6] := S[5];
      S[5] := S[4];
      S[4] := S[3];
      S[3] := S[2];
      S[2] := S[1];
      S[1] := S[0];
      S[0] := t;
    }

    /** The compression loop. */
    static method AllRounds(S: array<Word>, block: Block, W: array<Word>)
      requires S.Length == 8 && W.Length == 64 && S != W
      requires forall t: nat :: t < 64 ==> W[t] == Schedule(block, t)
      modifies S
      ensures VarsOf(S[..]) == Rounds(old(VarsOf(S[..])), block, K())
    {
      hide Plus, Round, Schedule, K, VarsOf;
      ghost var hash := VarsOf(S[..]);
      for i := 0 to 64
        invariant VarsOf(S[..]) == Rounds(hash, block, K()[..i])
        invariant forall t: nat :: t < 64 ==> W[t] == Schedule(block, t)
      {
        assert K()[..i + 1][..i] == K()[..i];
        RotatingRound(S, K()[i], W[i]);
      }
      assert K()[..64] == K();
    }

    /** TransformFunction */
    method Transform(block: Block)
      requires Shape()
      modifies state
      ensures VarsOf(state[..]) == Compress(old(VarsOf(state[..])), block)
    {
      hide Plus, Rounds, Schedule, K, VarsOf;
      var S := new Word[8];
      ghost var hash := VarsOf(state[..]);
      for i := 0 to 8
        invariant state[..] == old(state[..])
        invariant forall j: nat :: j < i ==> S[j] == state[j]
      {
        S[i] := state[i];
      }
      assert S[..] == state[..];
      assert VarsOf(S[..]) == hash;
      var W := FillSchedule(block);
      AllRounds(S, block, W);
      assert VarsOf(state[..]) == hash;
      Feedback(S);
    }

    method Feedback(S: array<Word>)
      requires Shape() && S.Length == 8 && S != state
      modifies state
      ensures VarsOf(state[..]) == AddVars(old(VarsOf(state[..])), VarsOf(S[..]))
    {
      hide Plus;
      for i := 0 to 8
        invariant forall j: nat :: j < i ==> state[j] == Plus(old(state[j]), S[j])
        invariant forall j: nat :: i <= j < 8 ==> state[j] == old(state[j])
      {
        state[i] := Plus(state[i], S[i]);
      }
    }

    /** memcpy(buf + curlen, x, |x|) */
    method Store(x: seq<bv8>)
      requires Shape() && curlen + |x| <= 64
      modifies buf
      ensures buf[..curlen + |x|] == old(buf[..curlen]) + x
    {
      for i := 0 to |x|
        invariant buf[..curlen] == old(buf[..curlen])
        invariant forall j: nat :: j < i ==> buf[curlen + j] == x[j]
      {
        buf[curlen + i] := x[i];
      }
      assert buf[curlen..curlen + |x|] == x;
      assert buf[..curlen + |x|] == buf[..curlen] + buf[curlen..curlen + |x|];
    }

    lemma NeverTooLong()
      requires Valid()
      ensures curlen < 64
    {}

    /** Sha256Update */
    method Update(data: seq<bv8>)
      requires Valid() && |data| < TWO_32
      modifies this, state, buf
      ensures Valid() && msg == old(msg) + data
    {
      hide *;
      if curlen > 64 {
        NeverTooLong();
        return;
      }
      ghost var was := msg;
      var pos := 0;
      while pos < |data|
        invariant pos <= |data|
        invariant Valid() && msg == was + data[..pos]
      {
        var n := UpdateStep(data, pos);
        assert was + data[..pos] + data[pos..pos + n] == was + data[..pos + n];
        pos := pos + n;
      }
      assert data[..|data|] == data;
    }

    /** TransformFunction on one more block of the message, and length += BLOCK_SIZE * 8. */
    method TransformNext(block: Block)
      requires Shape()
      modifies state, `length
      ensures VarsOf(state[..]) == Compress(old(VarsOf(state[..])), block)
      ensures length == AddLength(old(length), 512)
    {
      hide Compress, VarsOf;
      Transform(block);
      length := AddLength(length, 512);
    }

    static lemma AddBits(n: nat, k: nat)
      ensures AddLength(BitCount(n), 8 * k) == BitCount(n + k)
    {}

    /** The loop body: a whole block straight from the input, or a memcpy that may fill buf. */
    method UpdateStep(data: seq<bv8>, pos: nat) returns (n: nat)
      requires Valid() && pos < |data|
      modifies this, state, buf
      ensures Valid() && 1 <= n <= |data| - pos && msg == old(msg) + data[pos..pos + n]
    {
      hide *;
      NeverTooLong();
      if curlen == 0 && |data| - pos >= 64 {
        n := 64;
        TakeBlock(data[pos..pos + 64]);
      } else {
        n := if |data| - pos < 64 - curlen then |data| - pos else 64 - curlen;
        TakePart(data[pos..pos + n]);
      }
    }

    method TakeBlock(x: Block)
      requires Valid() && curlen == 0
      modifies state, `length, `msg
      ensures Valid() && msg == old(msg) + x
    {
      hide Compress, Absorbed, VarsOf, BitCount, AddLength;
      assert buf[..0] == [] && [] + x == x;
      AbsorbBlock(Compress, INITIAL, msg, VarsOf(state[..]), [], x);
      AddBits(|msg|, 64);
      TransformNext(x);
      msg := msg + x;
    }

    /** The memcpy branch. */
    method TakePart(x: seq<bv8>)
      requires Valid() && curlen + |x| <= 64
      modifies this, state, buf
      ensures Valid() && msg == old(msg) + x
    {
      hide Compress, Absorbed, VarsOf, BitCount, AddLength;
      ghost var tail := buf[..curlen];
      Store(x);
      if curlen + |x| == 64 {
        AbsorbBlock(Compress, INITIAL, msg, VarsOf(state[..]), tail, x);
        AddBits(|msg| - curlen, 64);
        assert buf[..] == tail + x;
        curlen := curlen + |x|;
        TransformNext(buf[..]);
        curlen := 0;
        assert buf[..0] == [];
      } else {
        AbsorbPart(Compress, INITIAL, msg, VarsOf(state[..]), tail, x);
        curlen := curlen + |x|;
      }
      msg := msg + x;
    }

    /** while (curlen < end) buf[curlen++] = 0 */
    method PadZeros(end: nat)
      requires Shape() && curlen <= end <= 64
      modifies buf, `curlen
      ensures curlen == end && buf[..end] == old(buf[..curlen]) + Zeros(end - old(curlen))
    {
      ghost var c, head := curlen, buf[..curlen];
      while curlen < end
        invariant c <= curlen <= end
        invariant buf[..c] == head
        invariant forall j: nat :: c <= j < curlen ==> buf[j] == 0
      {
        buf[curlen] := 0;
        curlen := curlen + 1;
      }
      assert buf[c..end] == Zeros(end - c);
      assert buf[..end] == buf[..c] + buf[c..end];
    }

    /** STORE64H(length, buf + 56) */
    method StoreLength()
      requires Shape()
      modifies buf
      ensures buf[..] == old(buf[..56]) + Length64(length)
    {
      hide ByteOf;
      var b := Length64(length);
      for i := 0 to 8
        invariant buf[..56] == old(buf[..56])
        invariant forall j: nat :: j < i ==> buf[56 + j] == b[j]
      {
        buf[56 + i] := b[i];
      }
      assert buf[56..] == b;
      assert buf[..] == buf[..56] + buf[56..];
    }

    /** The STORE32H loop. */
    method StoreDigest(digest: array<bv8>)
      requires Shape() && digest.Length == 32 && digest != buf
      modifies digest
      ensures digest[..] == Digest(VarsOf(state[..]))
    {
      hide OutputBytes;
      for i := 0 to 8
        invariant digest[..4 * i] == WordsBytes(state[..i])
      {
        var w := OutputBytes(state[i]);
        StoreWord(digest, 4 * i, w);
        assert state[..i + 1][..i] == state[..i];
      }
      assert state[..8] == state[..];
      assert digest[..32] == digest[..];
      ghost var v := VarsOf(state[..]);
      assert [v.a, v.b, v.c, v.d, v.e, v.f, v.g, v.h] == state[..];
    }

    /** STORE32H */
    static method StoreWord(digest: array<bv8>, o: nat, w: seq<bv8>)
      requires |w| == 4 && o + 4 <= digest.Length
      modifies digest
      ensures digest[..o + 4] == old(digest[..o]) + w
    {
      digest[o] := w[0];
      digest[o + 1] := w[1];
      digest[o + 2] := w[2];
      digest[o + 3] := w[3];
    }

    /** The padding of n bytes, split where Finalise compresses the first of two blocks. */
    static lemma PaddingParts(n: nat, c: nat)
      requires c == n % 64
      ensures c < 56 ==> Padding(n) == [0x80] + Zeros(55 - c) + Length64(BitCount(n))
      ensures c >= 56 ==> Padding(n) == ([0x80] + Zeros(63 - c)) + (Zeros(56) + Length64(BitCount(n)))
    {
      hide Length64;
      if c >= 56 {
        assert Zeros(119 - c) == Zeros(63 - c) + Zeros(56);
      }
    }

    /** Sha256Finalise */
    method Finalise(digest: array<bv8>)
      requires Valid() && digest.Length == 32 && digest != buf
      modifies this, state, buf, digest
      ensures digest[..] == Sha256(old(msg))
    {
      hide *;
      NeverTooLong();
      if curlen >= 64 {
        return;
      }
      AppendPadding();
      StoreDigest(digest);
      DigestOfPadded(old(msg));
    }

    static lemma DigestOfPadded(m: seq<bv8>)
      ensures Sha256(m) == Digest(Fold(Compress, INITIAL, m + Padding(|m|)))
    {
      hide Digest, Compress, Padding, Length64;
    }

    /** The part of Sha256Finalise before the output. */
    method AppendPadding()
      requires Valid()
      modifies this, state, buf
      ensures Shape() && VarsOf(state[..]) == Fold(Compress, INITIAL, old(msg) + Padding(|old(msg)|))
    {
      hide Compress, Absorbed, VarsOf, BitCount, AddLength, Padding, Length64;
      ghost var c, tail, n := curlen, buf[..curlen], |msg|;
      AbsorbedTail(Compress, INITIAL, msg, VarsOf(state[..]), tail);
      AddBits(n - c, c);
      length := AddLength(length, 8 * curlen);
      PaddingParts(n, c);
      buf[curlen] := 0x80;
      curlen := curlen + 1;
      assert buf[..c + 1] == tail + [0x80];
      if curlen > 56 {
        TwoBlocks(msg, tail, [0x80] + Zeros(63 - c), Zeros(56) + Length64(length));
      } else {
        LastBlock(msg, tail, [0x80], Padding(n));
      }
    }

    /** The padding when the length does not fit the block with the 1 bit. */
    method TwoBlocks(ghost m: seq<bv8>, ghost tail: seq<bv8>, ghost x: seq<bv8>, ghost y: seq<bv8>)
      requires Shape() && 56 <= |tail| < curlen && buf[..curlen] == tail + [0x80]
      requires x == [0x80] + Zeros(63 - |tail|) && y == Zeros(56) + Length64(length)
      requires Absorbed(Compress, INITIAL, m, VarsOf(state[..]), tail)
      modifies buf, `curlen, state
      ensures Shape()
      ensures |m + (x + y)| % 64 == 0 && VarsOf(state[..]) == Fold(Compress, INITIAL, m + (x + y))
    {
      hide Compress, Absorbed, VarsOf, Length64;
      CloseBlock(m, tail);
      assert buf[..0] == [] + [] && y == [] + Zeros(56) + Length64(length);
      LastBlock(m + x, [], [], y);
      assert (m + x) + y == m + (x + y);
    }

    /** The first of two blocks: zeros up to 64 bytes, TransformFunction, curlen = 0. */
    method CloseBlock(ghost m: seq<bv8>, ghost tail: seq<bv8>)
      requires Shape() && |tail| < curlen && buf[..curlen] == tail + [0x80]
      requires Absorbed(Compress, INITIAL, m, VarsOf(state[..]), tail)
      modifies buf, `curlen, state
      ensures Shape() && curlen == 0
      ensures Absorbed(Compress, INITIAL, m + ([0x80] + Zeros(63 - |tail|)), VarsOf(state[..]), [])
    {
      hide Compress, Absorbed, VarsOf;
      PadZeros(64);
      ghost var x := [0x80] + Zeros(63 - |tail|);
      assert buf[..] == buf[..64] == tail + x;
      AbsorbBlock(Compress, INITIAL, m, VarsOf(state[..]), tail, x);
      Transform(buf[..]);
      curlen := 0;
    }

    /** The last block: zeros up to 56 bytes, the length, TransformFunction. */
    method LastBlock(ghost m: seq<bv8>, ghost tail: seq<bv8>, ghost one: seq<bv8>, ghost x: seq<bv8>)
      requires Shape() && curlen <= 56 && buf[..curlen] == tail + one
      requires x == one + Zeros(56 - |tail| - |one|) + Length64(length)
      requires Absorbed(Compress, INITIAL, m, VarsOf(state[..]), tail)
      modifies buf, `curlen, state
      ensures Shape()
      ensures |m + x| % 64 == 0 && VarsOf(state[..]) == Fold(Compress, INITIAL, m + x)
    {
      hide Compress, Absorbed, VarsOf, Length64;
      PadZeros(56);
      StoreLength();
      assert buf[..] == tail + x;
      AbsorbBlock(Compress, INITIAL, m, VarsOf(state[..]), tail, x);
      Transform(buf[..]);
      AbsorbedAll(Compress, INITIAL, m + x, VarsOf(state[..]));
    }
  }

  /** Sha256Calculate */
  method Calculate(data: seq<bv8>, digest: array<bv8>)
    requires |data| < TWO_32 && digest.Length == 32
    modifies digest
    ensures digest[..] == Sha256(data)
  {
    hide *;
    var context := new Sha256Context();
    context.Update(data);
    assert [] + data == data;
    context.Finalise(digest);
  }

  /** Any sequence of updates, empty ones included, hashes the concatenation. */
  method HashChunks(chunks: seq<seq<bv8>>, digest: array<bv8>)
    requires forall i :: 0 <= i < |chunks| ==> |chunks[i]| < TWO_32
    requires digest.Length == 32
    modifies digest
    ensures digest[..] == Sha256(Concat(chunks))
  {
    hide Sha256, Sha256Context.Valid;
    var context := new Sha256Context();
    for i := 0 to |chunks|
      invariant context.Valid() && context.msg == Concat(chunks[..i])
      invariant fresh(context) && fresh(context.state) && fresh(context.buf)
    {
      assert chunks[..i + 1][..i] == chunks[..i];
      context.Update(chunks[i]);
    }
    assert chunks[..|chunks|] == chunks;
    context.Finalise(digest);
  }
}
