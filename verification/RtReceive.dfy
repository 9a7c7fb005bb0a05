/** The receive buffer of src/onesdk_rt.c: it grows as needed, and after each chunk messages are parsed
    off its front as long as the parser finds one. */
module RtReceive {
  import opened Wrappers
  import opened Bytes
  import opened Framing

  const SIZE_MAX := 0xFFFF_FFFF_FFFF_FFFF

  /** What size_t arithmetic makes of a sum or product. */
  function Word(x: nat): nat {
    x % (SIZE_MAX + 1)
  }

  /** A chunk is taken, dropped by the overflow guard, or copied past the end of the buffer. */
  datatype Outcome = Taken | Dropped | Overrun

  datatype Room = Room(outcome: Outcome, capacity: nat)

  function Fitting(need: nat, capacity: nat): Room {
    Room(if need <= capacity then Taken else Overrun, capacity)
  }

  /** The capacity after a chunk of n bytes came for a buffer of this size and capacity. */
  function Grown(first: bool, size: nat, capacity: nat, n: nat): Room {
    if first then Fitting(n, Word(n * 2))
    else if capacity < Word(size + n) then
      if n > SIZE_MAX / 2 || size > SIZE_MAX - n then Room(Dropped, capacity)
      else Fitting(size + n, Word(Word(size + n) * 2))
    else Fitting(size + n, capacity)
  }

  class RtContext {
    const parse: Cutter<char>
    var jsonBuf: array?<char>
    var jsonBufSize: nat
    var jsonBufCapacity: nat
    var dispatched: seq<string>

    ghost predicate Valid()
      reads this
    {
      && jsonBufSize <= jsonBufCapacity <= SIZE_MAX
      && (if jsonBuf == null then jsonBufCapacity == 0 else jsonBuf.Length == jsonBufCapacity)
    }

    ghost function State(): Buffer
      reads this, jsonBuf
      requires Valid()
    {
      Buffer(jsonBuf != null, Buffered(), jsonBufCapacity, dispatched)
    }

    ghost function Buffered(): string
      reads this, jsonBuf
      requires Valid()
    {
      if jsonBuf == null then "" else jsonBuf[..jsonBufSize]
    }

    constructor (parse: Cutter<char>)
      ensures Valid() && this.parse == parse && State() == NEW
    {
      this.parse := parse;
      jsonBuf, jsonBufSize, jsonBufCapacity, dispatched := null, 0, 0, [];
    }

    /** realloc and the new capacity. */
    method Regrow(capacity: nat)
      requires Valid() && jsonBuf != null && jsonBufSize <= capacity <= SIZE_MAX
      modifies this`jsonBuf, this`jsonBufCapacity
      ensures Valid() && jsonBuf != null && fresh(jsonBuf) && jsonBufCapacity == capacity
      ensures Buffered() == old(Buffered())
    {
      var newBuf := new char[capacity];
      forall i | 0 <= i < jsonBufSize {
        newBuf[i] := jsonBuf[i];
      }
      assert newBuf[..jsonBufSize] == jsonBuf[..jsonBufSize];
      jsonBufCapacity := capacity;
      jsonBuf := newBuf;
    }

    /** Makes room for n more bytes: allocated at first use, later replaced by twice what is needed. */
    method Reserve(n: nat) returns (o: Outcome)
      requires Valid() && n <= SIZE_MAX
      modifies this`jsonBuf, this`jsonBufCapacity, this`jsonBufSize
      ensures o == Grown(old(jsonBuf) == null, old(jsonBufSize), old(jsonBufCapacity), n).outcome
      ensures o != Taken ==> unchanged(this)
      ensures o == Taken ==>
        && Valid() && jsonBuf != null && (jsonBuf == old(jsonBuf) || fresh(jsonBuf))
        && jsonBufSize == old(jsonBufSize) && jsonBufSize + n <= jsonBufCapacity
        && Buffered() == old(Buffered())
        && jsonBufCapacity == Grown(old(jsonBuf) == null, old(jsonBufSize), old(jsonBufCapacity), n).capacity
    {
      hide Word;
      if jsonBuf == null {
        var capacity := Word(n * 2);
        if capacity < n {
          return Overrun;
        }
        WordIs(n * 2);
        jsonBufCapacity := capacity;
        jsonBuf := new char[capacity];
        jsonBufSize := 0;
      } else if jsonBufCapacity < Word(jsonBufSize + n) {
        if n > SIZE_MAX / 2 || jsonBufSize > SIZE_MAX - n {
          return Dropped;
        }
        var capacity := Word(Word(jsonBufSize + n) * 2);
        if capacity < jsonBufSize + n {
          return Overrun;
        }
        WordIs(Word(jsonBufSize + n) * 2);
        Regrow(capacity);
      } else if jsonBufCapacity < jsonBufSize + n {
        return Overrun;
      }
      return Taken;
    }

    method ShiftDown(processed: nat)
      requires Valid() && jsonBuf != null && processed <= jsonBufSize
      modifies this`jsonBufSize, jsonBuf
      ensures Valid() && Buffered() == old(Buffered())[processed..]
    {
      jsonBufSize := jsonBufSize - processed;
      forall i | 0 <= i < jsonBufSize {
        jsonBuf[i] := jsonBuf[processed + i];
      }
      assert jsonBuf[..jsonBufSize] == old(jsonBuf[..jsonBufSize])[processed..];
    }

    method Append(message: string)
      requires Valid() && jsonBuf != null && jsonBufSize + |message| <= jsonBufCapacity
      modifies this`jsonBufSize, jsonBuf
      ensures Valid() && Buffered() == old(Buffered()) + message
    {
      forall i | 0 <= i < |message| {
        jsonBuf[jsonBufSize + i] := message[i];
      }
      jsonBufSize := jsonBufSize + |message|;
      assert jsonBuf[..jsonBufSize] == old(jsonBuf[..jsonBufSize]) + message;
    }

    /** The message at the front goes to its callback, the rest moves to the front. */
    method DispatchOne(processed: nat)
      requires Valid() && jsonBuf != null && processed <= jsonBufSize
      modifies this`jsonBufSize, this`dispatched, jsonBuf
      ensures Valid() && dispatched == old(dispatched) + [old(Buffered())[..processed]]
      ensures Buffered() == old(Buffered())[processed..]
    {
      assert jsonBuf[..processed] == Buffered()[..processed];
      dispatched := dispatched + [jsonBuf[..processed]];
      ShiftDown(processed);
    }

    /** The loop over the messages in the buffer. */
    method Dispatch()
      requires Valid() && jsonBuf != null && Bounded(parse)
      modifies this`jsonBufSize, this`dispatched, jsonBuf
      ensures Valid()
      ensures var r := Split(parse, old(Buffered()));
              dispatched == old(dispatched) + r.frames && Buffered() == r.rest
    {
      hide Progress, Split, Bounded;
      ghost var cut := Split(parse, Buffered());
      ghost var done: seq<string> := [];
      ProgressStart(parse, Buffered());
      var root := parse(jsonBuf[..jsonBufSize]);
      while root.Some?
        invariant Valid() && root == parse(Buffered()) && Progress(parse, cut, done, Buffered())
        invariant dispatched == old(dispatched) + done
        decreases jsonBufSize
      {
        ghost var s := Buffered();
        ProgressStep(parse, cut, done, s);
        DispatchOne(root.value);
        Assoc(old(dispatched), done, [s[..root.value]]);
        done := done + [s[..root.value]];
        root := parse(jsonBuf[..jsonBufSize]);
      }
      ProgressEnd(parse, cut, done, Buffered());
    }

    /** rt_recv_cb on one chunk. Where the source would copy past the end, the model stops. */
    method Receive(message: string) returns (o: Outcome)
      requires Valid() && Bounded(parse) && |message| <= SIZE_MAX
      modifies this`jsonBuf, this`jsonBufCapacity, this`jsonBufSize, this`dispatched, jsonBuf
      ensures Valid() && (jsonBuf == old(jsonBuf) || fresh(jsonBuf))
      ensures o == Grown(old(jsonBuf) == null, old(jsonBufSize), old(jsonBufCapacity), |message|).outcome
      ensures o != Taken ==> unchanged(this)
      ensures State() == Step(parse, old(State()), message)
    {
      hide Grown, Split;
      o := Reserve(|message|);
      if o == Taken {
        Append(message);
        Dispatch();
      }
    }

    /** A call for each chunk of a stream, on a new context: with a self-delimiting parser the messages
        dispatched, and what is kept, are those of the stream. */
    method ReceiveAll(chunks: seq<string>)
      requires Valid() && SelfDelimiting(parse) && State() == NEW
      requires 2 * |Concat(chunks)| <= SIZE_MAX
      modifies this`jsonBuf, this`jsonBufCapacity, this`jsonBufSize, this`dispatched
      ensures Valid() && dispatched == Split(parse, Concat(chunks)).frames
      ensures Buffered() == Split(parse, Concat(chunks)).rest
    {
      hide Grown, Split, Step, SelfDelimiting, Concat;
      assert Bounded(parse) by { DelimitingIsBounded(parse); }
      assert chunks[..0] == [];
      for i := 0 to |chunks|
        invariant Valid() && (jsonBuf == null || fresh(jsonBuf))
        invariant State() == Run(parse, NEW, chunks[..i])
      {
        assert chunks[..i + 1][..i] == chunks[..i];
        ChunksShorter(chunks, i);
        var o := Receive(chunks[i]);
      }
      assert chunks[..|chunks|] == chunks;
      RunContent(parse, chunks);
    }
  }

  lemma DelimitingIsBounded(parse: Cutter<char>)
    requires SelfDelimiting(parse)
    ensures Bounded(parse)
  {}

  // ---------- when a chunk is taken ----------

  /** A chunk is taken if and only if it fits or twice what is needed is a size_t. */
  lemma TakenExactly(first: bool, size: nat, capacity: nat, n: nat)
    requires size <= capacity <= SIZE_MAX && n <= SIZE_MAX && (first ==> capacity == 0)
    ensures Grown(first, size, capacity, n).outcome == Taken <==> size + n <= capacity || 2 * (size + n) <= SIZE_MAX
  {
    hide Word;
    WordIs(size + n);
    WordIs(Word(size + n) * 2);
    WordIs(n * 2);
  }

  lemma WordIs(x: nat)
    ensures x <= SIZE_MAX ==> Word(x) == x
    ensures SIZE_MAX < x <= 2 * SIZE_MAX + 1 ==> Word(x) == x - SIZE_MAX - 1
    ensures Word(x) <= SIZE_MAX
  {}

  /** The guard tests the sum and not its double: when buffer and chunk have sizes an object can have,
      it never drops a chunk, and a sum of 2^63 or more that does not fit runs past the new buffer. */
  lemma GuardIsDead(first: bool, size: nat, capacity: nat, n: nat)
    requires size <= capacity && capacity <= SIZE_MAX / 2 && n <= SIZE_MAX / 2 && (first ==> capacity == 0)
    ensures Grown(first, size, capacity, n).outcome != Dropped
    ensures 2 * (size + n) > SIZE_MAX ==> Grown(first, size, capacity, n).outcome == Overrun
  {
    TakenExactly(first, size, capacity, n);
  }

  /** When a chunk is taken size and capacity are enough; replacing the buffer more than doubles it, and
      it is then twice the size that caused it. */
  lemma GrowthLaws(first: bool, size: nat, capacity: nat, n: nat)
    requires size <= capacity <= SIZE_MAX && n <= SIZE_MAX && (first ==> capacity == 0)
    requires Grown(first, size, capacity, n).outcome == Taken
    ensures var c := Grown(first, size, capacity, n).capacity;
            && size + n <= c <= SIZE_MAX && capacity <= c
            && (c != capacity ==> c == 2 * (size + n) && c > 2 * capacity)
  {
    hide Word;
    TakenExactly(first, size, capacity, n);
    WordIs(size + n);
    WordIs(Word(size + n) * 2);
    WordIs(n * 2);
  }

  // ---------- what Receive does over a run ----------

  /** A context after a run of chunks: whether its buffer is allocated, what is in it, its capacity, and
      the messages dispatched. */
  datatype Buffer = Buffer(used: bool, content: string, capacity: nat, dispatched: seq<string>)

  const NEW := Buffer(false, "", 0, [])

  ghost function Step(parse: Cutter<char>, b: Buffer, chunk: string): Buffer
    requires Bounded(parse)
  {
    var room := Grown(!b.used, |b.content|, b.capacity, |chunk|);
    var cut := Split(parse, b.content + chunk);
    if room.outcome == Taken then Buffer(true, cut.rest, room.capacity, b.dispatched + cut.frames) else b
  }

  ghost function Run(parse: Cutter<char>, b: Buffer, chunks: seq<string>): Buffer
    requires Bounded(parse)
  {
    if chunks == [] then b
    else Step(parse, Run(parse, b, chunks[..|chunks| - 1]), chunks[|chunks| - 1])
  }

  /** On every run the content fits the capacity, and the capacity is at most twice the whole stream. */
  lemma {:induction false} RunFits(parse: Cutter<char>, chunks: seq<string>)
    requires Bounded(parse) && forall i :: 0 <= i < |chunks| ==> |chunks[i]| <= SIZE_MAX
    ensures var b := Run(parse, NEW, chunks);
            && |b.content| <= b.capacity <= 2 * |Concat(chunks)| && |b.content| <= |Concat(chunks)|
            && b.capacity <= SIZE_MAX && (!b.used ==> b.capacity == 0)
  {
    hide Grown;
    if chunks != [] {
      var b, c := Run(parse, NEW, chunks[..|chunks| - 1]), chunks[|chunks| - 1];
      RunFits(parse, chunks[..|chunks| - 1]);
      SplitConserves(parse, b.content + c);
      if Grown(!b.used, |b.content|, b.capacity, |c|).outcome == Taken {
        GrowthLaws(!b.used, |b.content|, b.capacity, |c|);
      }
    }
  }

  lemma {:induction false} ChunksShorter(chunks: seq<string>, i: nat)
    requires i < |chunks|
    ensures |chunks[i]| <= |Concat(chunks)|
  {
    if i < |chunks| - 1 {
      ChunksShorter(chunks[..|chunks| - 1], i);
    }
  }

  /** While twice the stream is a size_t, every chunk of it is taken. */
  lemma RunTaken(parse: Cutter<char>, chunks: seq<string>, chunk: string)
    requires Bounded(parse) && 2 * |Concat(chunks) + chunk| <= SIZE_MAX
    ensures var b := Run(parse, NEW, chunks); Grown(!b.used, |b.content|, b.capacity, |chunk|).outcome == Taken
  {
    hide Grown, Run, Concat;
    forall i | 0 <= i < |chunks| ensures |chunks[i]| <= SIZE_MAX {
      ChunksShorter(chunks, i);
    }
    var b := Run(parse, NEW, chunks);
    RunFits(parse, chunks);
    TakenExactly(!b.used, |b.content|, b.capacity, |chunk|);
  }

  /** With a self-delimiting parser the messages dispatched over a run, and what is retained, are those
      of the stream, however it is chunked. */
  lemma {:induction false} RunContent(parse: Cutter<char>, chunks: seq<string>)
    requires SelfDelimiting(parse) && 2 * |Concat(chunks)| <= SIZE_MAX
    ensures var b, r := Run(parse, NEW, chunks), Split(parse, Concat(chunks));
            b.content == r.rest && b.dispatched == r.frames
  {
    hide Grown;
    if chunks == [] {
      assert Split(parse, "") == Cut([], "");
    } else {
      var init, c := chunks[..|chunks| - 1], chunks[|chunks| - 1];
      RunContent(parse, init);
      RunTaken(parse, init, c);
      SelfDelimitingIsStable(parse, Concat(init) + c);
      SplitPrefix(parse, Concat(init), c);
    }
  }

  // ---------- when nothing is dispatched any more ----------

  /** When no continuation of the buffer starts with a message, nothing is dispatched on any run, and the
      buffer only grows. */
  lemma {:induction false} NeverAgain(parse: Cutter<char>, b: Buffer, chunks: seq<string>)
    requires Bounded(parse) && DeadEnd(parse, b.content)
    ensures var t := Run(parse, b, chunks);
            t.dispatched == b.dispatched && b.content <= t.content && DeadEnd(parse, t.content)
    decreases |chunks|
  {
    hide Grown, DeadEnd;
    if chunks != [] {
      var init, c := chunks[..|chunks| - 1], chunks[|chunks| - 1];
      NeverAgain(parse, b, init);
      var t := Run(parse, b, init);
      DeadEndMore(parse, t.content, c);
      SplitOfDeadEnd(parse, t.content, c);
      assert t.dispatched + [] == t.dispatched;
    }
  }

  lemma SplitOfDeadEnd(parse: Cutter<char>, rest: string, c: string)
    requires Bounded(parse) && DeadEnd(parse, rest)
    ensures Split(parse, rest + c) == Cut([], rest + c)
  {}

  /** Otherwise a continuation that does, as long as it is taken, has one dispatched. */
  lemma WokenUp(parse: Cutter<char>, b: Buffer, c: string)
    requires Bounded(parse) && parse(b.content + c).Some?
    requires Grown(!b.used, |b.content|, b.capacity, |c|).outcome == Taken
    ensures |Step(parse, b, c).dispatched| > |b.dispatched|
  {
    hide Grown;
  }
}
