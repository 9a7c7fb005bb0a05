/** Where src/protocols/lws_http_client.c cuts an event stream: at the first CR LF CR LF anywhere in
    the buffer, and only without one at the first LF LF. */
module SseFraming {
  import opened Wrappers
  import opened Bytes
  import opened Framing

  const CRLF2 := "\r\n\r\n"
  const LF2 := "\n\n"

  predicate OccursAt(s: string, needle: string, i: nat) {
    i + |needle| <= |s| && s[i..i + |needle|] == needle
  }

  ghost predicate Occurs(s: string, needle: string) {
    exists i: nat :: OccursAt(s, needle, i)
  }

  /** onesdk_memmem from position i on. */
  function Find(s: string, needle: string, i: nat): (r: Option<nat>)
    requires i <= |s|
    ensures r.Some? ==> i <= r.value && OccursAt(s, needle, r.value)
    ensures forall k: nat :: i <= k && OccursAt(s, needle, k) ==> r.Some? && r.value <= k
    decreases |s| - i
  {
    if OccursAt(s, needle, i) then Some(i)
    else if i < |s| then Find(s, needle, i + 1)
    else None
  }

  /** The length of the first event block in the buffer. */
  function SseNext(s: string): Option<nat> {
    if Find(s, CRLF2, 0).Some? then Some(Find(s, CRLF2, 0).value + 4)
    else if Find(s, LF2, 0).Some? then Some(Find(s, LF2, 0).value + 2)
    else None
  }

  lemma SseBounded()
    ensures Bounded(SseNext)
  {}

  lemma OccursPrefix(s: string, needle: string, k: nat, i: nat)
    requires k <= |s|
    ensures OccursAt(s[..k], needle, i) <==> OccursAt(s, needle, i) && i + |needle| <= k
  {
    if i + |needle| <= k {
      assert s[..k][i..i + |needle|] == s[i..i + |needle|];
    }
  }

  /** The first occurrence in a prefix is the first one of all, when it lies in the prefix. */
  lemma FindPrefix(s: string, needle: string, k: nat)
    requires k <= |s|
    ensures var r := Find(s, needle, 0);
            Find(s[..k], needle, 0) == if r.Some? && r.value + |needle| <= k then r else None
  {
    hide Find, OccursAt;
    var r, p := Find(s, needle, 0), Find(s[..k], needle, 0);
    if r.Some? {
      OccursPrefix(s, needle, k, r.value);
    }
    if p.Some? {
      OccursPrefix(s, needle, k, p.value);
    }
  }

  lemma FindNone(s: string, needle: string)
    ensures Find(s, needle, 0).None? <==> !Occurs(s, needle)
  {}

  lemma SseSelfContained()
    ensures SelfContained(SseNext)
  {
    hide Find;
    forall s | SseNext(s).Some? && SseNext(s).value <= |s| ensures SseNext(s[..SseNext(s).value]) == SseNext(s) {
      FindPrefix(s, CRLF2, SseNext(s).value);
      FindPrefix(s, LF2, SseNext(s).value);
    }
  }

  // ---------- when the chunks do not matter ----------

  /** An event block that ends in CR LF CR LF holds no LF LF. */
  ghost predicate Clean(block: string) {
    |block| >= 4 && block[|block| - 4..] == CRLF2 ==> !Occurs(block, LF2)
  }

  ghost predicate AllClean(blocks: seq<string>) {
    forall i :: 0 <= i < |blocks| ==> Clean(blocks[i])
  }

  /** So it is with every block of the whole stream. */
  ghost predicate Unmixed(s: string) {
    SseBounded();
    AllClean(Split(SseNext, s).frames)
  }

  /** The first block is clean exactly when no part of the data shows another first block. */
  lemma CleanFirst(s: string)
    ensures PrefixesAgree(SseNext, s) <==> (SseNext(s).Some? ==> Clean(s[..SseNext(s).value]))
  {
    hide Find, PrefixesAgree;
    var c, l := Find(s, CRLF2, 0), Find(s, LF2, 0);
    if c.Some? {
      var n := c.value + 4;
      var block := s[..n];
      assert block[|block| - 4..] == s[c.value..n];
      assert CRLF2[2] == '\r' && s[c.value + 2] == s[c.value..n][2];
      if Occurs(block, LF2) {
        var j: nat :| OccursAt(block, LF2, j);
        OccursPrefix(s, LF2, n, j);
        assert LF2[1] == '\n' && s[j + 1] == s[j..j + 2][1];
        assert LF2[0] == '\n' && s[j] == s[j..j + 2][0];
        NotAgreed(s, j);
      } else {
        AgreedCrlf(s);
      }
    } else if l.Some? {
      var n := l.value + 2;
      var block := s[..n];
      assert LF2[0] == '\n' && s[l.value] == s[l.value..n][0];
      assert |block| >= 4 ==> block[|block| - 4..][2] == '\n' && CRLF2[2] == '\r';
      AgreedLf(s);
    } else {
      AgreedLf(s);
    }
  }

  /** An LF LF before the end of the first CR LF CR LF is taken when no more has arrived. */
  lemma NotAgreed(s: string, j: nat)
    requires var c := Find(s, CRLF2, 0); c.Some? && j + 2 <= c.value + 4 && OccursAt(s, LF2, j)
    ensures !PrefixesAgree(SseNext, s)
  {
    hide Find, OccursAt;
    var c := Find(s, CRLF2, 0).value;
    NoOverlap(s, c, j);
    FindPrefix(s, CRLF2, j + 2);
    FindPrefix(s, LF2, j + 2);
    assert SseNext(s[..j + 2]).Some? && SseNext(s[..j + 2]).value <= j + 2 < c + 4;
    assert SseNext(s) == Some(c + 4);
  }

  /** An LF LF does not end where a CR LF CR LF does. */
  lemma NoOverlap(s: string, c: nat, j: nat)
    requires OccursAt(s, CRLF2, c) && OccursAt(s, LF2, j)
    ensures j + 2 != c + 4 && j + 2 <= |s|
  {
    assert s[c..c + 4][2] == '\r' && s[j..j + 2][0] == '\n';
  }

  lemma AgreedCrlf(s: string)
    requires var c := Find(s, CRLF2, 0); c.Some? && !Occurs(s[..c.value + 4], LF2)
    ensures PrefixesAgree(SseNext, s)
  {
    hide Find;
    var n := Find(s, CRLF2, 0).value + 4;
    forall k | 0 <= k <= |s| && SseNext(s[..k]).Some? ensures SseNext(s) == SseNext(s[..k]) {
      FindPrefix(s, CRLF2, k);
      FindPrefix(s, LF2, k);
      var l := Find(s, LF2, 0);
      if k < n && l.Some? && l.value + 2 <= k {
        OccursPrefix(s, LF2, n, l.value);
        assert false;
      }
    }
  }

  lemma AgreedLf(s: string)
    requires Find(s, CRLF2, 0).None?
    ensures PrefixesAgree(SseNext, s)
  {
    hide Find;
    forall k | 0 <= k <= |s| && SseNext(s[..k]).Some? ensures SseNext(s) == SseNext(s[..k]) {
      FindPrefix(s, CRLF2, k);
      FindPrefix(s, LF2, k);
    }
  }

  lemma {:induction false} StableUnmixed(s: string)
    ensures Bounded(SseNext) && (Stable(SseNext, s) <==> Unmixed(s))
    decreases |s|
  {
    hide SseNext, PrefixesAgree, Clean, AllClean;
    SseBounded();
    CleanFirst(s);
    if SseNext(s).Some? {
      var n := SseNext(s).value;
      StableUnmixed(s[n..]);
      AllCleanFirst(s[..n], Split(SseNext, s[n..]).frames);
    } else {
      AllCleanNone();
    }
  }

  lemma AllCleanNone()
    ensures AllClean([])
  {}

  lemma AllCleanFirst(block: string, more: seq<string>)
    ensures AllClean([block] + more) <==> Clean(block) && AllClean(more)
  {
    hide Clean;
    var all := [block] + more;
    assert all[0] == block && forall i :: 0 <= i < |more| ==> more[i] == all[i + 1];
    if Clean(block) && AllClean(more) {
      forall i | 0 <= i < |all| ensures Clean(all[i]) {
        assert i > 0 ==> Clean(more[i - 1]);
      }
    }
  }

  /** The event blocks delivered depend only on the joined chunks exactly when no block of the whole
      stream that ends in CR LF CR LF holds an LF LF. */
  lemma SseChunks(s: string)
    ensures Bounded(SseNext) && (ChunksIrrelevant(SseNext, s) <==> Unmixed(s))
  {
    hide Unmixed;
    StableUnmixed(s);
    SseSelfContained();
    ChunksIrrelevantExactly(SseNext, s);
  }

  /** It suffices that the stream uses one kind of delimiter. */
  lemma OneDelimiter(s: string)
    requires !Occurs(s, CRLF2) || !Occurs(s, LF2)
    ensures Bounded(SseNext) && ChunksIrrelevant(SseNext, s)
  {
    SseChunks(s);
    OneDelimiterUnmixed(s);
  }

  lemma OneDelimiterUnmixed(s: string)
    requires !Occurs(s, CRLF2) || !Occurs(s, LF2)
    ensures Unmixed(s)
  {
    hide SseNext, Find, Occurs, Clean;
    SseBounded();
    forall i | 0 <= i < |Split(SseNext, s).frames| ensures Clean(Split(SseNext, s).frames[i]) {
      FramesOccur(s, i, CRLF2);
      FramesOccur(s, i, LF2);
      OneDelimiterClean(Split(SseNext, s).frames[i]);
    }
  }

  lemma OneDelimiterClean(block: string)
    requires !Occurs(block, CRLF2) || !Occurs(block, LF2)
    ensures Clean(block)
  {
    if |block| >= 4 && block[|block| - 4..] == CRLF2 {
      assert OccursAt(block, CRLF2, |block| - 4);
    }
  }

  lemma {:induction false} FramesOccur(s: string, i: nat, needle: string)
    requires Bounded(SseNext) && i < |Split(SseNext, s).frames|
    ensures Occurs(Split(SseNext, s).frames[i], needle) ==> Occurs(s, needle)
    decreases |s|
  {
    hide SseNext, Occurs;
    var n := SseNext(s).value;
    if i == 0 {
      assert s[..n] == s[0..n];
      OccursWithin(s, 0, n, needle);
    } else {
      FramesOccur(s[n..], i - 1, needle);
      assert s[n..] == s[n..|s|];
      OccursWithin(s, n, |s|, needle);
    }
  }

  lemma SliceSlice(s: string, lo: nat, hi: nat, a: nat, b: nat)
    requires lo <= hi <= |s| && a <= b <= hi - lo
    ensures s[lo..hi][a..b] == s[lo + a..lo + b]
  {
    assert |s[lo..hi][a..b]| == |s[lo + a..lo + b]|;
    forall i | 0 <= i < b - a ensures s[lo..hi][a..b][i] == s[lo + a..lo + b][i] {
      assert s[lo..hi][a..b][i] == s[lo..hi][a + i];
    }
  }

  lemma OccursWithin(s: string, lo: nat, hi: nat, needle: string)
    requires lo <= hi <= |s|
    ensures Occurs(s[lo..hi], needle) ==> Occurs(s, needle)
  {
    var t := s[lo..hi];
    if Occurs(t, needle) {
      var k: nat :| OccursAt(t, needle, k);
      SliceSlice(s, lo, hi, k, k + |needle|);
      var i: nat := lo + k;
      assert OccursAt(s, needle, i);
    }
  }

  /** A mixed stream whose chunks matter: joined it is one block, cut after the LF LF it is two. */
  lemma MixedStream()
    ensures Bounded(SseNext)
    ensures Split(SseNext, LF2 + CRLF2).frames == [LF2 + CRLF2]
    ensures SplitChunks(SseNext, [], [LF2] + [CRLF2]).frames == [LF2] + [CRLF2]
  {
    hide SseNext;
    SseBounded();
    NextOfMixed();
    WholeBlock(LF2 + CRLF2);
    WholeBlock(LF2);
    WholeBlock(CRLF2);
    assert [] + LF2 == LF2 && [] + CRLF2 == CRLF2;
    var chunks, none := [LF2] + [CRLF2], [];
    assert chunks[1..] == [CRLF2] && [CRLF2][1..] == none;
    assert SplitChunks(SseNext, [], [CRLF2]) == Cut([CRLF2] + [], []);
  }

  lemma NextOfMixed()
    ensures SseNext(LF2 + CRLF2) == Some(6) && SseNext(LF2) == Some(2) && SseNext(CRLF2) == Some(4)
  {
    hide Find;
    var s := LF2 + CRLF2;
    assert s[2..6] == CRLF2 && OccursAt(s, CRLF2, 2);
    assert s[0..4][0] == '\n' && s[1..5][0] == '\n' && CRLF2[0] == '\r';
    assert LF2[0..2] == LF2 && OccursAt(LF2, LF2, 0);
    assert CRLF2[0..4] == CRLF2 && OccursAt(CRLF2, CRLF2, 0);
  }

  lemma WholeBlock(s: string)
    requires SseNext(s) == Some(|s|)
    ensures Bounded(SseNext) && Split(SseNext, s) == Cut([s], [])
  {
    hide SseNext;
    SseBounded();
    assert s[..|s|] == s && s[|s|..] == [];
    assert Split(SseNext, []) == Cut([], []);
    assert Split(SseNext, s) == Cut([s] + [], []);
  }
}
