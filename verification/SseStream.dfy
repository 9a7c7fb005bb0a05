/** A rendered event stream through the client's buffer and parser. */
module SseStream {
  import opened Wrappers
  import opened Bytes
  import opened Framing
  import opened SseFraming
  import opened SseParse
  import opened SseBuffer
  import opened SseRender

  /** The last name and the last data of each event. */
  function Events(events: seq<seq<Item>>): seq<Message> {
    seq(|events|, i requires 0 <= i < |events| => Message(LastEvent(events[i]), LastData(events[i])))
  }

  lemma {:induction false} ConcatBlocks(events: seq<seq<Item>>, crlf: bool)
    ensures Concat(Blocks(events, crlf)) == Stream(events, crlf)
    decreases |events|
  {
    hide Block, Concat;
    if events == [] {
      ConcatNone("");
      assert Blocks(events, crlf) == [];
    } else {
      ConcatBlocks(events[1..], crlf);
      assert Blocks(events, crlf) == [Block(events[0], crlf)] + Blocks(events[1..], crlf);
      ConcatFirst(Block(events[0], crlf), Blocks(events[1..], crlf));
    }
  }

  lemma {:induction false} BlocksParse(events: seq<seq<Item>>, crlf: bool)
    requires GoodStream(events)
    ensures AllParse(Blocks(events, crlf)) && Messages(Blocks(events, crlf)) == Events(events)
    decreases |events|
  {
    hide Parse, GoodEvent, LastEvent, LastData, AllParse, Joined, Messages;
    if events == [] {
      NoMessages();
      assert Blocks(events, crlf) == [];
    } else {
      var block := Block(events[0], crlf);
      BlocksParse(events[1..], crlf);
      RoundTrip(events[0], Repeat(crlf, |events[0]| + 1));
      MessagesOne(block);
      assert Blocks(events, crlf) == [block] + Blocks(events[1..], crlf);
      MessagesConcat([block], Blocks(events[1..], crlf));
      assert Events(events) == [Message(LastEvent(events[0]), LastData(events[0]))] + Events(events[1..]);
    }
  }

  lemma StreamUnmixed(events: seq<seq<Item>>, crlf: bool)
    requires GoodStream(events)
    ensures Unmixed(Stream(events, crlf))
  {
    hide SseNext, Stream, GoodStream, Unmixed, Occurs;
    StreamJoined(events, crlf);
    NoOther(StreamLines(events, crlf), crlf);
    assert Eol(true) + Eol(true) == CRLF2 && Eol(false) + Eol(false) == LF2;
    OneDelimiterUnmixed(Stream(events, crlf));
  }

  /** A stream written with one kind of line end is cut into its events, with nothing left over, if
      and only if no read overflows the buffer. */
  lemma StreamDelivered(events: seq<seq<Item>>, crlf: bool, chunks: seq<string>)
    requires GoodStream(events) && Concat(chunks) == Stream(events, crlf)
    ensures Feed("", chunks) == Cut(Blocks(events, crlf), "") <==> NoOverflow("", chunks)
  {
    hide SseNext, Stream, GoodStream, Feed, NoOverflow, Concat, Blocks, Unmixed, Split, Bounded;
    FeedStream(chunks);
    StreamUnmixed(events, crlf);
    StreamSplit(events, crlf);
    ConcatBlocks(events, crlf);
    assert Stream(events, crlf) + "" == Stream(events, crlf);
  }

  /** A read for each chunk of such a stream, from an empty buffer: however it is chunked, as long as
      no read overflows, the events arrive one by one. */
  method ReceiveStream(sse: SseContext, chunks: seq<string>, ghost events: seq<seq<Item>>, ghost crlf: bool)
    returns (ok: bool)
    requires sse.Valid() && sse.Retained() == ""
    requires GoodStream(events) && Concat(chunks) == Stream(events, crlf) && NoOverflow("", chunks)
    modifies sse, sse.buffer
    ensures ok && sse.Valid() && sse.Retained() == ""
    ensures sse.delivered == old(sse.delivered) + Events(events)
  {
    hide Stream, GoodEvent, Feed, NoOverflow, Concat, Blocks, Messages, AllParse;
    StreamDelivered(events, crlf, chunks);
    BlocksParse(events, crlf);
    ok := sse.ReceiveAll(chunks);
  }
}
