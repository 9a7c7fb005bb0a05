/** The receive buffer of src/protocols/lws_http_client.c: each chunk is appended as far as it fits,
    event blocks are cut off and parsed, and the rest is moved to the front. */
module SseBuffer {
  import opened Wrappers
  import opened Bytes
  import opened Framing
  import opened SseFraming
  import opened SseParse

  const BUFFER_SIZE := 15360

  /** How much of a chunk of n bytes is taken when used bytes are in the buffer. */
  function Admitted(used: nat, n: nat): nat
    requires used < BUFFER_SIZE
  {
    var available := BUFFER_SIZE - used - 1;
    if n > available then available else n
  }

  predicate AllParse(blocks: seq<string>) {
    forall i :: 0 <= i < |blocks| ==> Parse(blocks[i]).Some?
  }

  /** What the callback sees of the blocks, in order, up to the first that is not parsed. */
  function Messages(blocks: seq<string>): seq<Message> {
    if blocks == [] || Parse(blocks[0]).None? then [] else [Parse(blocks[0]).value] + Messages(blocks[1..])
  }

  lemma {:induction false} MessagesConcat(a: seq<string>, b: seq<string>)
    ensures AllParse(a + b) <==> AllParse(a) && AllParse(b)
    ensures Messages(a + b) == if AllParse(a) then Messages(a) + Messages(b) else Messages(a)
    decreases |a|
  {
    hide Parse, AllParse, Messages;
    AllParseConcat(a, b);
    if a == [] {
      NoMessages();
      assert a + b == b && Messages([]) + Messages(b) == Messages(b);
    } else {
      var more := a[1..];
      MessagesConcat(more, b);
      MessagesCons(a[0], more);
      MessagesCons(a[0], more + b);
      assert a == [a[0]] + more && a + b == [a[0]] + (more + b);
    }
  }

  lemma MessagesCons(block: string, more: seq<string>)
    ensures AllParse([block] + more) <==> Parse(block).Some? && AllParse(more)
    ensures Messages([block] + more) == if Parse(block).Some? then [Parse(block).value] + Messages(more) else []
  {
    hide Parse;
    MessagesOne(block);
    AllParseConcat([block], more);
    assert ([block] + more)[1..] == more && ([block] + more)[0] == block;
  }

  lemma AllParseConcat(a: seq<string>, b: seq<string>)
    ensures AllParse(a + b) <==> AllParse(a) && AllParse(b)
  {
    hide Parse;
    var all := a + b;
    assert forall i :: 0 <= i < |a| ==> all[i] == a[i];
    assert forall i :: 0 <= i < |b| ==> all[|a| + i] == b[i];
  }

  lemma MessagesOne(block: string)
    ensures Messages([block]) == (if Parse(block).Some? then [Parse(block).value] else [])
    ensures AllParse([block]) <==> Parse(block).Some?
  {
    hide Parse;
    assert [block][1..] == [];
  }

  /** onesdk_memmem: the first place from start on where the needle stands in the buffer. */
  method Memmem(hay: array<char>, start: nat, end: nat, needle: string) returns (r: Option<nat>)
    requires start <= end <= hay.Length && needle != ""
    ensures r == match Find(hay[start..end], needle, 0) case None => None case Some(k) => Some(start + k)
  {
    hide Find, OccursAt;
    ghost var s := hay[start..end];
    if end - start < |needle| {
      TooShort(s, needle, 0);
      return None;
    }
    var i := 0;
    while i <= end - start - |needle|
      invariant 0 <= i <= |s| && Find(s, needle, 0) == Find(s, needle, i)
    {
      FindStep(hay[..], start, end, needle, i);
      if hay[start + i..start + i + |needle|] == needle {
        return Some(start + i);
      }
      i := i + 1;
    }
    TooShort(s, needle, i);
    return None;
  }

  lemma TooShort(s: string, needle: string, i: nat)
    requires i <= |s| < i + |needle|
    ensures Find(s, needle, i).None?
  {}

  lemma FindStep(hay: string, start: nat, end: nat, needle: string, i: nat)
    requires start <= end <= |hay| && i + |needle| <= end - start && needle != ""
    ensures var s := hay[start..end];
            Find(s, needle, i) ==
            if hay[start + i..start + i + |needle|] == needle then Some(i) else Find(s, needle, i + 1)
  {
    SliceSlice(hay, start, end, i, i + |needle|);
  }

  ghost function CutOf(s: string): Cut<char> {
    SseBounded();
    Split(SseNext, s)
  }

  class SseContext {
    const buffer: array<char>
    var usedLen: nat
    var delivered: seq<Message>

    ghost predicate Valid()
      reads this
    {
      buffer.Length == BUFFER_SIZE && usedLen < BUFFER_SIZE
    }

    ghost function Retained(): string
      reads this, buffer
      requires Valid()
    {
      buffer[..usedLen]
    }

    constructor ()
      ensures Valid() && fresh(buffer) && Retained() == "" && delivered == []
    {
      buffer := new char[BUFFER_SIZE](i => '\0');
      usedLen := 0;
      delivered := [];
    }

    /** The end of the first block from curPos on: CR LF CR LF is looked for before LF LF. */
    method NextBlockEnd(curPos: nat) returns (r: Option<nat>)
      requires Valid() && curPos <= usedLen
      ensures Valid() && r == match SseNext(buffer[curPos..usedLen]) case None => None case Some(n) => Some(curPos + n)
    {
      var eventEnd := Memmem(buffer, curPos, usedLen, "\r\n\r\n");
      if eventEnd.Some? {
        return Some(eventEnd.value + 4);
      }
      eventEnd := Memmem(buffer, curPos, usedLen, "\n\n");
      if eventEnd.Some? {
        return Some(eventEnd.value + 2);
      }
      return None;
    }

    method Append(chunk: string)
      requires Valid()
      modifies this`usedLen, buffer
      ensures Valid() && Retained() == old(Retained()) + chunk[..Admitted(old(usedLen), |chunk|)]
    {
      var len := |chunk|;
      var available := BUFFER_SIZE - usedLen - 1;
      if len > available {
        len := available;
      }
      forall i | 0 <= i < len {
        buffer[usedLen + i] := chunk[i];
      }
      usedLen := usedLen + len;
      buffer[usedLen] := '\0';
      assert buffer[..usedLen] == old(buffer[..usedLen]) + chunk[..len];
    }

    method MoveToFront(curPos: nat)
      requires Valid() && curPos <= usedLen
      modifies this`usedLen, buffer
      ensures Valid() && Retained() == old(buffer[curPos..usedLen])
    {
      var remaining := usedLen - curPos;
      forall i | 0 <= i < remaining {
        buffer[i] := buffer[curPos + i];
      }
      usedLen := remaining;
      buffer[remaining] := '\0';
      assert buffer[..remaining] == old(buffer[curPos..usedLen]);
    }

    method HandOver(curPos: nat, end: nat) returns (ok: bool)
      requires Valid() && curPos <= end <= usedLen
      modifies this`delivered
      ensures Valid() && delivered == old(delivered) + Messages([buffer[curPos..end]])
      ensures ok <==> AllParse([buffer[curPos..end]])
    {
      MessagesOne(buffer[curPos..end]);
      var message := ParseSseMessage(buffer[curPos..end]);
      ok := message.Some?;
      if ok {
        delivered := delivered + [message.value];
      }
    }

    /** The loop over the blocks in the buffer. It fails at a block whose fields do not fit the
        parser's buffers. */
    method Deliver(ghost cut: Cut<char>) returns (ok: bool, curPos: nat)
      requires Valid() && cut == CutOf(Retained())
      modifies this`delivered
      ensures Valid() && delivered == old(delivered) + Messages(cut.frames)
      ensures ok <==> AllParse(cut.frames)
      ensures ok ==> curPos <= usedLen && buffer[curPos..usedLen] == cut.rest
    {
      hide SseNext, Parse, AllParse, Progress, Messages, Bounded, Split, CutOf;
      StartCutting(cut, Retained());
      ghost var done: seq<string> := [];
      curPos := 0;
      assert buffer[0..usedLen] == Retained();
      NoMessages();
      while curPos < usedLen
        invariant 0 <= curPos <= usedLen && Progress(SseNext, cut, done, buffer[curPos..usedLen])
        invariant AllParse(done) && delivered == old(delivered) + Messages(done)
      {
        var end := NextBlockEnd(curPos);
        if end.None? {
          break;
        }
        DeliverStep(cut, done, buffer[..], curPos, end.value, usedLen);
        MessagesConcat(done, [buffer[curPos..end.value]]);
        done := done + [buffer[curPos..end.value]];
        ok := HandOver(curPos, end.value);
        if !ok {
          StopAt(cut, done);
          return false, curPos;
        }
        curPos := end.value;
      }
      EmptyHasNone();
      assert curPos == usedLen ==> buffer[curPos..usedLen] == "";
      ProgressEnd(SseNext, cut, done, buffer[curPos..usedLen]);
      ok := true;
    }

    /** One RECEIVE_CLIENT_HTTP_READ with this chunk. When it fails the source has written outside its
        buffers, and nothing is said of the context from then on. */
    method Receive(chunk: string) returns (ok: bool)
      requires Valid()
      modifies this, buffer
      ensures var r := CutOf(old(Retained()) + chunk[..Admitted(old(usedLen), |chunk|)]);
              && Valid() && delivered == old(delivered) + Messages(r.frames)
              && (ok <==> AllParse(r.frames))
              && (ok ==> Retained() == r.rest)
    {
      hide SseNext, AllParse, Messages, CutOf;
      Append(chunk);
      ghost var cut := CutOf(Retained());
      var curPos;
      ok, curPos := Deliver(cut);
      if ok {
        MoveToFront(curPos);
      }
    }

    /** A read for each chunk in turn. */
    method ReceiveAll(chunks: seq<string>) returns (ok: bool)
      requires Valid()
      modifies this, buffer
      ensures var r := Feed(old(Retained()), chunks);
              && Valid() && delivered == old(delivered) + Messages(r.frames)
              && (ok <==> AllParse(r.frames))
              && (ok ==> Retained() == r.rest)
    {
      hide CutOf, AllParse, Messages, Feed;
      ghost var all := Feed(Retained(), chunks);
      ghost var done: seq<string> := [];
      NoMessages();
      assert chunks[0..] == chunks && [] + all.frames == all.frames;
      for i := 0 to |chunks|
        invariant Valid() && all == After(done, Feed(Retained(), chunks[i..]))
        invariant AllParse(done) && delivered == old(delivered) + Messages(done)
      {
        ghost var rest := Retained();
        ghost var one := CutOf(rest + chunks[i][..Admitted(|rest|, |chunks[i]|)]);
        FeedStep(rest, chunks[i..]);
        assert chunks[i..][0] == chunks[i] && chunks[i..][1..] == chunks[i + 1..];
        MessagesConcat(done, one.frames);
        ok := Receive(chunks[i]);
        ghost var more := Feed(one.rest, chunks[i + 1..]);
        Assoc(done, one.frames, more.frames);
        done := done + one.frames;
        if !ok {
          MessagesConcat(done, more.frames);
          return false;
        }
      }
      FeedNone(Retained());
      assert done + [] == done && chunks[|chunks|..] == [];
      ok := true;
    }
  }

  ghost function After(done: seq<string>, more: Cut<char>): Cut<char> {
    Cut(done + more.frames, more.rest)
  }

  /** A block that is not parsed ends the messages, whatever blocks follow. */
  lemma StopAt(cut: Cut<char>, done: seq<string>)
    requires |done| <= |cut.frames| && cut.frames[..|done|] == done && !AllParse(done)
    ensures !AllParse(cut.frames) && Messages(cut.frames) == Messages(done)
  {
    assert cut.frames == done + cut.frames[|done|..];
    MessagesConcat(done, cut.frames[|done|..]);
  }

  lemma StartCutting(cut: Cut<char>, s: string)
    requires cut == CutOf(s)
    ensures Bounded(SseNext) && Progress(SseNext, cut, [], s)
  {
    SseBounded();
    ProgressStart(SseNext, s);
  }

  /** The block at curPos..end is the next one of cut. */
  lemma DeliverStep(cut: Cut<char>, done: seq<string>, buffer: string, curPos: nat, end: nat, used: nat)
    requires curPos <= used <= |buffer| && SseNext(buffer[curPos..used]) == Some(end - curPos)
    requires Bounded(SseNext) && Progress(SseNext, cut, done, buffer[curPos..used])
    ensures curPos < end <= used
    ensures var next := done + [buffer[curPos..end]];
            && Progress(SseNext, cut, next, buffer[end..used])
            && |next| <= |cut.frames| && cut.frames[..|next|] == next
  {
    hide SseNext;
    var s := buffer[curPos..used];
    ProgressStep(SseNext, cut, done, s);
    assert s[..end - curPos] == buffer[curPos..end] && s[end - curPos..] == buffer[end..used];
  }

  lemma NoMessages()
    ensures Messages([]) == [] && AllParse([])
  {}

  lemma EmptyHasNone()
    ensures SseNext("").None?
  {}

  // ---------- what Receive does over a whole stream ----------

  /** What a run of Receive calls delivers and keeps, chunk by chunk. */
  ghost function Feed(rest: string, chunks: seq<string>): (r: Cut<char>)
    requires |rest| < BUFFER_SIZE
    decreases |chunks|
  {
    SseBounded();
    if chunks == [] then Cut([], rest)
    else
      var s := rest + chunks[0][..Admitted(|rest|, |chunks[0]|)];
      RestShorter(s);
      var one := Split(SseNext, s);
      var more := Feed(one.rest, chunks[1..]);
      Cut(one.frames + more.frames, more.rest)
  }

  lemma {:induction false} RestShorter(s: string)
    ensures Bounded(SseNext) && |Split(SseNext, s).rest| <= |s|
    decreases |s|
  {
    SseBounded();
    SplitConserves(SseNext, s);
  }

  /** No chunk is cut short on its way into the buffer. */
  ghost predicate NoOverflow(rest: string, chunks: seq<string>)
    requires |rest| < BUFFER_SIZE
    decreases |chunks|
  {
    SseBounded();
    chunks != [] ==>
      && |rest + chunks[0]| < BUFFER_SIZE
      && (RestShorter(rest + chunks[0]); NoOverflow(Split(SseNext, rest + chunks[0]).rest, chunks[1..]))
  }

  lemma {:induction false} FeedIsSplitChunks(rest: string, chunks: seq<string>)
    requires |rest| < BUFFER_SIZE && NoOverflow(rest, chunks)
    ensures Bounded(SseNext) && Feed(rest, chunks) == SplitChunks(SseNext, rest, chunks)
    decreases |chunks|
  {
    hide SseNext;
    SseBounded();
    if chunks != [] {
      var c := chunks[0];
      assert c[..Admitted(|rest|, |c|)] == c;
      RestShorter(rest + c);
      FeedIsSplitChunks(Split(SseNext, rest + c).rest, chunks[1..]);
    }
  }

  lemma FeedStep(rest: string, chunks: seq<string>)
    requires |rest| < BUFFER_SIZE && chunks != []
    ensures var one := CutOf(rest + chunks[0][..Admitted(|rest|, |chunks[0]|)]);
            |one.rest| < BUFFER_SIZE && Feed(rest, chunks) == After(one.frames, Feed(one.rest, chunks[1..]))
  {
    hide SseNext;
    RestShorter(rest + chunks[0][..Admitted(|rest|, |chunks[0]|)]);
  }

  lemma FeedNone(rest: string)
    requires |rest| < BUFFER_SIZE
    ensures Feed(rest, []) == Cut([], rest)
  {}

  /** Nothing is lost exactly when nothing overflows. */
  lemma {:induction false} FeedLength(rest: string, chunks: seq<string>)
    requires |rest| < BUFFER_SIZE
    ensures var r := Feed(rest, chunks); var n := |Concat(r.frames)| + |r.rest|;
            n <= |rest| + |Concat(chunks)| && (n == |rest| + |Concat(chunks)| <==> NoOverflow(rest, chunks))
    decreases |chunks|
  {
    hide SseNext, Concat, Split;
    if chunks == [] {
      ConcatNone(rest);
    } else {
      SseBounded();
      var c := chunks[0];
      var s := rest + c[..Admitted(|rest|, |c|)];
      var one := Split(SseNext, s);
      RestShorter(s);
      var more := Feed(one.rest, chunks[1..]);
      FeedLength(one.rest, chunks[1..]);
      SplitConserves(SseNext, s);
      ConcatAppend(one.frames, more.frames);
      assert chunks == [c] + chunks[1..];
      ConcatFirst(c, chunks[1..]);
      if |rest + c| < BUFFER_SIZE {
        assert c[..Admitted(|rest|, |c|)] == c;
      }
    }
  }

  /** Blocks delivered and bytes retained join up to the stream if and only if nothing overflows. Then,
      if the stream is not mixed, they depend on the stream only; and used_len stays in the buffer. */
  lemma FeedStream(chunks: seq<string>)
    ensures var r := Feed("", chunks);
            && |r.rest| <= 15359
            && (Concat(r.frames) + r.rest == Concat(chunks) <==> NoOverflow("", chunks))
            && Bounded(SseNext)
            && (NoOverflow("", chunks) && Unmixed(Concat(chunks)) ==> r == Split(SseNext, Concat(chunks)))
  {
    hide SseNext, Unmixed, Stable, NoOverflow, Feed;
    SseBounded();
    FeedFits("", chunks);
    FeedLength("", chunks);
    assert "" + Concat(chunks) == Concat(chunks);
    if NoOverflow("", chunks) {
      FeedIsSplitChunks("", chunks);
      SplitChunksConserves(SseNext, "", chunks);
      SseChunks(Concat(chunks));
      if Unmixed(Concat(chunks)) {
        assert SplitChunks(SseNext, [], chunks) == Split(SseNext, Concat(chunks));
      }
    }
  }

  lemma {:induction false} FeedFits(rest: string, chunks: seq<string>)
    requires |rest| < BUFFER_SIZE
    ensures |Feed(rest, chunks).rest| < BUFFER_SIZE
    decreases |chunks|
  {
    hide SseNext;
    SseBounded();
    if chunks != [] {
      var s := rest + chunks[0][..Admitted(|rest|, |chunks[0]|)];
      RestShorter(s);
      FeedFits(Split(SseNext, s).rest, chunks[1..]);
    }
  }

  // ---------- a stuck buffer ----------

  /** A buffer that is full without a delimiter stays as it is. */
  lemma {:induction false} FullIsStuck(rest: string, chunks: seq<string>)
    requires |rest| == BUFFER_SIZE - 1 && SseNext(rest).None?
    ensures Feed(rest, chunks) == Cut([], rest)
    decreases |chunks|
  {
    hide SseNext;
    SseBounded();
    if chunks != [] {
      assert rest + chunks[0][..0] == rest;
      FullIsStuck(rest, chunks[1..]);
    }
  }

  predicate EndsWith(s: string, p: string) {
    |p| <= |s| && s[|s| - |p|..] == p
  }

  /** How many bytes it takes at least to complete a delimiter. */
  function Missing(rest: string): nat {
    if EndsWith(rest, "\n") || EndsWith(rest, "\r\n\r") then 1 else 2
  }

  /** A needle that is not there is completed by one byte only if the rest of it ends the buffer. */
  lemma OneByteOf(rest: string, c: char, d: string, start: string)
    requires d != "" && start == d[..|d| - 1] && Find(rest, d, 0).None? && !EndsWith(rest, start)
    ensures Find(rest + [c], d, 0).None?
  {
    hide Find, EndsWith;
    var s := rest + [c];
    assert s[..|rest|] == rest;
    FindPrefix(s, d, |rest|);
    if Find(s, d, 0).Some? {
      LastByte(rest, c, d, Find(s, d, 0).value);
    }
  }

  lemma Starts()
    ensures CRLF2 != "" && LF2 != "" && CRLF2[..|CRLF2| - 1] == "\r\n\r" && LF2[..|LF2| - 1] == "\n"
  {}

  lemma OneByte(rest: string, c: char)
    requires SseNext(rest).None? && Missing(rest) == 2
    ensures SseNext(rest + [c]).None?
  {
    hide Find, EndsWith, CRLF2, LF2;
    Starts();
    OneByteOf(rest, c, CRLF2, "\r\n\r");
    OneByteOf(rest, c, LF2, "\n");
  }

  lemma LastByte(rest: string, c: char, d: string, k: nat)
    requires d != "" && OccursAt(rest + [c], d, k) && k + |d| == |rest| + 1
    ensures EndsWith(rest, d[..|d| - 1])
  {
    var s := rest + [c];
    assert rest[k..] == s[k..k + |d|][..|d| - 1];
  }

  /** A delimiter whose start ends the buffer is there once the rest of it has come. */
  lemma CompletedBy(rest: string, start: string, end: string)
    requires EndsWith(rest, start)
    ensures OccursAt(rest + end, start + end, |rest| - |start|)
  {
    var k := |rest| - |start|;
    assert rest + end == rest[..k] + (start + end);
  }

  lemma HasNext(s: string, d: string, k: nat)
    requires d in {CRLF2, LF2} && OccursAt(s, d, k)
    ensures SseNext(s).Some?
  {}

  lemma Completes(rest: string)
    ensures EndsWith(rest, "\n") || EndsWith(rest, "\r\n\r") ==> SseNext(rest + "\n").Some?
    ensures SseNext(rest + "\n\n").Some?
  {
    hide SseNext, OccursAt;
    assert "\n" + "\n" == LF2 && "\r\n\r" + "\n" == CRLF2 && "" + "\n\n" == LF2;
    if EndsWith(rest, "\n") {
      CompletedBy(rest, "\n", "\n");
      HasNext(rest + "\n", LF2, |rest| - 1);
    } else if EndsWith(rest, "\r\n\r") {
      CompletedBy(rest, "\r\n\r", "\n");
      HasNext(rest + "\n", CRLF2, |rest| - 3);
    }
    CompletedBy(rest, "", "\n\n");
    HasNext(rest + "\n\n", LF2, |rest|);
  }

  lemma CutOfNone(s: string)
    requires SseNext(s).None?
    ensures CutOf(s) == Cut([], s)
  {}

  lemma {:induction false} ShortIsStuck(rest: string, chunks: seq<string>)
    requires |rest| < BUFFER_SIZE && SseNext(rest).None? && BUFFER_SIZE - 1 - |rest| < Missing(rest)
    ensures Feed(rest, chunks).frames == []
    decreases |chunks|
  {
    hide SseNext, Feed, CutOf, EndsWith;
    if |rest| == BUFFER_SIZE - 1 {
      FullIsStuck(rest, chunks);
    } else if chunks == [] {
      FeedNone(rest);
    } else {
      var c := chunks[0];
      FeedStep(rest, chunks);
      if c == "" {
        assert rest + c[..0] == rest;
        CutOfNone(rest);
        ShortIsStuck(rest, chunks[1..]);
      } else {
        assert rest + c[..1] == rest + [c[0]];
        OneByte(rest, c[0]);
        CutOfNone(rest + [c[0]]);
        FullIsStuck(rest + [c[0]], chunks[1..]);
      }
    }
  }

  lemma FeedOne(rest: string, c: string)
    requires |rest + c| < BUFFER_SIZE && SseNext(rest + c).Some?
    ensures Feed(rest, [c]).frames != []
  {
    hide SseNext;
    SseBounded();
    assert c[..Admitted(|rest|, |c|)] == c;
  }

  /** Without a delimiter in the buffer, nothing is ever delivered again if and only if the room left
      is less than what completes one. */
  lemma StuckExactly(rest: string)
    requires |rest| < BUFFER_SIZE && SseNext(rest).None?
    ensures (forall chunks :: Feed(rest, chunks).frames == []) <==> 15359 - |rest| < Missing(rest)
  {
    hide SseNext, Feed;
    Completes(rest);
    if BUFFER_SIZE - 1 - |rest| < Missing(rest) {
      forall chunks ensures Feed(rest, chunks).frames == [] {
        ShortIsStuck(rest, chunks);
      }
    } else {
      FeedOne(rest, if Missing(rest) == 1 then "\n" else "\n\n");
    }
  }
}
