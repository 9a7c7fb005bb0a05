/** Hashing by 64-byte blocks with an abstract compression function, and the buffering state
    machine that SHA-256 and MD5 share. */
module BlockHash {
  import opened Bytes

  type Block = b: seq<bv8> | |b| == 64 witness Zeros(64)

  /** f applied to all the blocks of m in turn. */
  function Fold<S>(f: (S, Block) -> S, s: S, m: seq<bv8>): S
    requires |m| % 64 == 0
    decreases |m|
  {
    if m == [] then s else Fold(f, f(s, m[..64]), m[64..])
  }

  lemma {:induction false} FoldConcat<S>(f: (S, Block) -> S, s: S, m: seq<bv8>, n: seq<bv8>)
    requires |m| % 64 == 0 && |n| % 64 == 0
    ensures |m + n| % 64 == 0 && Fold(f, s, m + n) == Fold(f, Fold(f, s, m), n)
    decreases |m|
  {
    if m == [] {
      assert m + n == n;
    } else {
      assert (m + n)[..64] == m[..64] && (m + n)[64..] == m[64..] + n;
      FoldConcat(f, f(s, m[..64]), m[64..], n);
    }
  }

  lemma FoldBlock<S>(f: (S, Block) -> S, s: S, m: seq<bv8>, b: Block)
    requires |m| % 64 == 0
    ensures |m + b| % 64 == 0 && Fold(f, s, m + b) == f(Fold(f, s, m), b)
  {
    FoldConcat(f, s, m, b);
    assert b[..64] == b && b[64..] == [];
  }

  /** After absorbing msg from init: the whole blocks are in the state, the rest is in the buffer. */
  ghost predicate Absorbed<S>(f: (S, Block) -> S, init: S, msg: seq<bv8>, state: S, tail: seq<bv8>) {
    && |tail| < 64 && |tail| <= |msg|
    && (|msg| - |tail|) % 64 == 0
    && tail == msg[|msg| - |tail|..]
    && state == Fold(f, init, msg[..|msg| - |tail|])
  }

  lemma AbsorbedTail<S>(f: (S, Block) -> S, init: S, msg: seq<bv8>, state: S, tail: seq<bv8>)
    requires Absorbed(f, init, msg, state, tail)
    ensures |tail| < 64 && |tail| <= |msg| && (|msg| - |tail|) % 64 == 0
  {}

  lemma AbsorbedNothing<S>(f: (S, Block) -> S, init: S)
    ensures Absorbed(f, init, [], init, [])
  {}

  /** Bytes that do not fill the buffer are only stored. */
  lemma AbsorbPart<S>(f: (S, Block) -> S, init: S, msg: seq<bv8>, state: S, tail: seq<bv8>, x: seq<bv8>)
    requires Absorbed(f, init, msg, state, tail) && |tail| + |x| < 64
    ensures Absorbed(f, init, msg + x, state, tail + x)
  {
    var k := |msg| - |tail|;
    assert (msg + x)[..k] == msg[..k];
    assert (msg + x)[k..] == msg[k..] + x;
  }

  /** Bytes that fill the buffer exactly trigger one compression and empty it. */
  lemma AbsorbBlock<S>(f: (S, Block) -> S, init: S, msg: seq<bv8>, state: S, tail: seq<bv8>, x: seq<bv8>)
    requires Absorbed(f, init, msg, state, tail) && |tail| + |x| == 64
    ensures Absorbed(f, init, msg + x, f(state, tail + x), [])
  {
    var k := |msg| - |tail|;
    assert msg + x == msg[..k] + (tail + x);
    FoldBlock(f, init, msg[..k], tail + x);
    assert (msg + x)[..|msg + x|] == msg + x;
  }

  /** With an empty buffer the state is the fold over the whole message. */
  lemma AbsorbedAll<S>(f: (S, Block) -> S, init: S, msg: seq<bv8>, state: S)
    requires Absorbed(f, init, msg, state, [])
    ensures |msg| % 64 == 0 && state == Fold(f, init, msg)
  {
    assert msg[..|msg|] == msg;
  }

  /** How many zero bytes padding puts between the 1 bit and the length of n bytes: the fewest that
      fill a block. */
  function ZeroBytes(n: nat): (z: nat)
    ensures z < 64 && (n + z + 9) % 64 == 0
  {
    (119 - n % 64) % 64
  }
}
