/** Cutting a stream that arrives in chunks: a buffer keeps what is not cut yet, and each chunk is
    appended to it before as many frames as possible are cut off the front. */
module Framing {
  import opened Wrappers
  import opened Bytes

  /** How many elements the first frame of the buffered data takes, if it is there already. */
  type Cutter<!T> = seq<T> -> Option<nat>

  /** A frame is not empty and lies within the data. */
  ghost predicate Bounded<T(!new)>(next: Cutter<T>) {
    forall s :: next(s).Some? ==> 0 < next(s).value <= |s|
  }

  /** More data does not change a frame that is there already. */
  ghost predicate SelfDelimiting<T(!new)>(next: Cutter<T>) {
    Bounded(next) && forall s, t :: next(s).Some? ==> next(s + t) == next(s)
  }

  datatype Cut<T> = Cut(frames: seq<seq<T>>, rest: seq<T>)

  /** The loop over the buffer: cut frames off until there is none. */
  ghost function Split<T(!new)>(next: Cutter<T>, s: seq<T>): Cut<T>
    requires Bounded(next)
    decreases |s|
  {
    if next(s).None? then Cut([], s)
    else
      var n := next(s).value;
      var more := Split(next, s[n..]);
      Cut([s[..n]] + more.frames, more.rest)
  }

  /** All chunks in turn, each against what the ones before it left. */
  ghost function SplitChunks<T(!new)>(next: Cutter<T>, rest: seq<T>, chunks: seq<seq<T>>): Cut<T>
    requires Bounded(next)
    decreases |chunks|
  {
    if chunks == [] then Cut([], rest)
    else
      var one := Split(next, rest + chunks[0]);
      var more := SplitChunks(next, one.rest, chunks[1..]);
      Cut(one.frames + more.frames, more.rest)
  }

  lemma Assoc<T>(a: seq<T>, b: seq<T>, c: seq<T>)
    ensures (a + b) + c == a + (b + c)
  {}

  lemma Halves<T>(s: seq<T>, n: nat)
    requires n <= |s|
    ensures s[..n] + s[n..] == s
  {}

  lemma ConcatNone<T>(s: seq<T>)
    ensures Concat([]) + s == s && s + Concat([]) == s
  {}

  lemma ConcatOne<T>(a: seq<T>)
    ensures Concat([a]) == a
  {
    assert [a][..0] == [] && Concat<T>([]) == [];
  }

  lemma {:induction false} ConcatAppend<T>(a: seq<seq<T>>, b: seq<seq<T>>)
    ensures Concat(a + b) == Concat(a) + Concat(b)
    decreases |b|
  {
    if b == [] {
      assert a + b == a;
    } else {
      var init, last := b[..|b| - 1], b[|b| - 1];
      assert (a + b)[..|a + b| - 1] == a + init;
      ConcatAppend(a, init);
      assert Concat(a) + (Concat(init) + last) == (Concat(a) + Concat(init)) + last;
    }
  }

  lemma ConcatFirst<T>(a: seq<T>, chunks: seq<seq<T>>)
    ensures Concat([a] + chunks) == a + Concat(chunks)
  {
    ConcatOne(a);
    ConcatAppend([a], chunks);
  }

  /** Nothing is lost and nothing is cut out: the frames and the rest are the data. */
  lemma {:induction false} SplitConserves<T(!new)>(next: Cutter<T>, s: seq<T>)
    requires Bounded(next)
    ensures var r := Split(next, s); Concat(r.frames) + r.rest == s && next(r.rest).None?
    decreases |s|
  {
    hide Concat;
    if next(s).Some? {
      var n := next(s).value;
      var more := Split(next, s[n..]);
      SplitConserves(next, s[n..]);
      ConcatFirst(s[..n], more.frames);
      Assoc(s[..n], Concat(more.frames), more.rest);
      Halves(s, n);
    } else {
      ConcatNone(s);
    }
  }

  lemma {:induction false} SplitChunksConserves<T(!new)>(next: Cutter<T>, rest: seq<T>, chunks: seq<seq<T>>)
    requires Bounded(next)
    ensures var r := SplitChunks(next, rest, chunks); Concat(r.frames) + r.rest == rest + Concat(chunks)
    decreases |chunks|
  {
    hide Concat, Split;
    if chunks == [] {
      ConcatNone(rest);
    } else {
      var one := Split(next, rest + chunks[0]);
      var more := SplitChunks(next, one.rest, chunks[1..]);
      SplitConserves(next, rest + chunks[0]);
      SplitChunksConserves(next, one.rest, chunks[1..]);
      ConcatAppend(one.frames, more.frames);
      assert chunks == [chunks[0]] + chunks[1..];
      ConcatFirst(chunks[0], chunks[1..]);
      Assoc(Concat(one.frames), Concat(more.frames), more.rest);
      Assoc(Concat(one.frames), one.rest, Concat(chunks[1..]));
      Assoc(rest, chunks[0], Concat(chunks[1..]));
    }
  }

  // ---------- the loop over the buffer ----------

  /** The frames of cut up to here are done, tail is still to be cut. */
  ghost predicate Progress<T(!new)>(next: Cutter<T>, cut: Cut<T>, done: seq<seq<T>>, tail: seq<T>)
    requires Bounded(next)
  {
    cut == Cut(done + Split(next, tail).frames, Split(next, tail).rest)
  }

  lemma ProgressStart<T(!new)>(next: Cutter<T>, s: seq<T>)
    requires Bounded(next)
    ensures Progress(next, Split(next, s), [], s)
  {
    assert [] + Split(next, s).frames == Split(next, s).frames;
  }

  lemma ProgressStep<T(!new)>(next: Cutter<T>, cut: Cut<T>, done: seq<seq<T>>, tail: seq<T>)
    requires Bounded(next) && Progress(next, cut, done, tail) && next(tail).Some?
    ensures var n := next(tail).value;
            && 0 < n <= |tail| && Progress(next, cut, done + [tail[..n]], tail[n..])
            && |done| < |cut.frames| && cut.frames[|done|] == tail[..n]
  {
    var n := next(tail).value;
    Assoc(done, [tail[..n]], Split(next, tail[n..]).frames);
  }

  lemma ProgressEnd<T(!new)>(next: Cutter<T>, cut: Cut<T>, done: seq<seq<T>>, tail: seq<T>)
    requires Bounded(next) && Progress(next, cut, done, tail) && next(tail).None?
    ensures cut == Cut(done, tail)
  {
    assert done + [] == done;
  }

  // ---------- when the chunks do not matter ----------

  /** A frame found in part of the data is the frame of the data. */
  ghost predicate PrefixesAgree<T(!new)>(next: Cutter<T>, s: seq<T>) {
    forall k :: 0 <= k <= |s| && next(s[..k]).Some? ==> next(s) == next(s[..k])
  }

  /** The same wherever a frame of s starts. */
  ghost predicate Stable<T(!new)>(next: Cutter<T>, s: seq<T>)
    requires Bounded(next)
    decreases |s|
  {
    PrefixesAgree(next, s) && (next(s).Some? ==> Stable(next, s[next(s).value..]))
  }

  /** A frame is found when just the frame has arrived. */
  ghost predicate SelfContained<T(!new)>(next: Cutter<T>) {
    forall s :: next(s).Some? && next(s).value <= |s| ==> next(s[..next(s).value]) == next(s)
  }

  ghost predicate ChunksIrrelevant<T(!new)>(next: Cutter<T>, s: seq<T>)
    requires Bounded(next)
  {
    forall chunks :: Concat(chunks) == s ==> SplitChunks(next, [], chunks) == Split(next, s)
  }

  /** Cutting first what has arrived and then the rest is cutting everything. */
  lemma {:induction false} SplitPrefix<T(!new)>(next: Cutter<T>, a: seq<T>, b: seq<T>)
    requires Bounded(next) && Stable(next, a + b)
    ensures var one := Split(next, a); var more := Split(next, one.rest + b);
            Stable(next, one.rest + b) && Split(next, a + b) == Cut(one.frames + more.frames, more.rest)
    decreases |a|
  {
    var s := a + b;
    assert s[..|a|] == a;
    if next(a).Some? {
      var n := next(a).value;
      assert next(s) == next(a);
      assert s[n..] == a[n..] + b && s[..n] == a[..n];
      SplitPrefix(next, a[n..], b);
      var tail := Split(next, a[n..]);
      var more := Split(next, tail.rest + b);
      hide *;
      Assoc([a[..n]], tail.frames, more.frames);
    } else {
      assert Split(next, a) == Cut([], a);
      hide *;
    }
  }

  lemma {:induction false} StableSplit<T(!new)>(next: Cutter<T>, rest: seq<T>, chunks: seq<seq<T>>)
    requires Bounded(next) && next(rest).None? && Stable(next, rest + Concat(chunks))
    ensures SplitChunks(next, rest, chunks) == Split(next, rest + Concat(chunks))
    decreases |chunks|
  {
    if chunks == [] {
      assert rest + Concat(chunks) == rest;
    } else {
      var a, b := rest + chunks[0], Concat(chunks[1..]);
      assert chunks == [chunks[0]] + chunks[1..];
      ConcatFirst(chunks[0], chunks[1..]);
      assert rest + Concat(chunks) == a + b;
      SplitPrefix(next, a, b);
      SplitConserves(next, a);
      StableSplit(next, Split(next, a).rest, chunks[1..]);
    }
  }

  /** A frame found too early stays the first one delivered. */
  lemma EarlyFrame<T(!new)>(next: Cutter<T>, s: seq<T>, k: nat)
    requires Bounded(next) && k <= |s| && next(s[..k]).Some? && next(s) != next(s[..k])
    ensures SplitChunks(next, [], [s[..k]] + [s[k..]]).frames != Split(next, s).frames
  {
    var a, b := s[..k], s[k..];
    var n := next(a).value;
    var chunks := [a] + [b];
    assert chunks[0] == a && [] + a == a;
    assert SplitChunks(next, [], chunks).frames[0] == a[..n];
    if next(s).Some? {
      assert |Split(next, s).frames[0]| == next(s).value;
    }
  }

  /** A first chunk that is just the first frame gives that frame and leaves nothing. */
  lemma JustTheFrame<T(!new)>(next: Cutter<T>, a: seq<T>, tail: seq<seq<T>>)
    requires Bounded(next) && next(a) == Some(|a|)
    ensures var more := SplitChunks(next, [], tail);
            SplitChunks(next, [], [a] + tail) == Cut([a] + more.frames, more.rest)
  {
    hide Split;
    var chunks := [a] + tail;
    assert chunks[0] == a && chunks[1..] == tail && [] + a == a;
    OneFrame(next, a);
  }

  lemma OneFrame<T(!new)>(next: Cutter<T>, a: seq<T>)
    requires Bounded(next) && next(a) == Some(|a|)
    ensures Split(next, a) == Cut([a], [])
  {
    assert a[..|a|] == a && a[|a|..] == [];
    assert Split(next, []) == Cut([], []);
    assert Split(next, a) == Cut([a] + [], []);
  }

  lemma SameTail<T>(a: seq<T>, x: seq<seq<T>>, y: seq<seq<T>>)
    requires [a] + x == [a] + y
    ensures x == y
  {
    assert ([a] + x)[1..] == x && ([a] + y)[1..] == y;
  }

  /** Where the data is not stable, a chunking that gives other frames. */
  lemma {:induction false} UnstableSplit<T(!new)>(next: Cutter<T>, s: seq<T>) returns (chunks: seq<seq<T>>)
    requires Bounded(next) && SelfContained(next) && !Stable(next, s)
    ensures Concat(chunks) == s && SplitChunks(next, [], chunks) != Split(next, s)
    decreases |s|
  {
    hide Concat, SplitChunks;
    if !PrefixesAgree(next, s) {
      var k :| 0 <= k <= |s| && next(s[..k]).Some? && next(s) != next(s[..k]);
      chunks := [s[..k]] + [s[k..]];
      ConcatFirst(s[..k], [s[k..]]);
      ConcatOne(s[k..]);
      Halves(s, k);
      EarlyFrame(next, s, k);
    } else {
      var n := next(s).value;
      var tail := UnstableSplit(next, s[n..]);
      chunks := [s[..n]] + tail;
      ConcatFirst(s[..n], tail);
      Halves(s, n);
      JustTheFrame(next, s[..n], tail);
      var more, rest := SplitChunks(next, [], tail), Split(next, s[n..]);
      if [s[..n]] + more.frames == [s[..n]] + rest.frames {
        SameTail(s[..n], more.frames, rest.frames);
      }
    }
  }

  /** The frames depend only on the joined chunks exactly when the data is stable. */
  lemma ChunksIrrelevantExactly<T(!new)>(next: Cutter<T>, s: seq<T>)
    requires Bounded(next) && SelfContained(next)
    ensures ChunksIrrelevant(next, s) <==> Stable(next, s)
  {
    if Stable(next, s) {
      forall chunks | Concat(chunks) == s ensures SplitChunks(next, [], chunks) == Split(next, s) {
        assert [] + s == s;
        StableSplit(next, [], chunks);
      }
    } else {
      var chunks := UnstableSplit(next, s);
    }
  }

  // ---------- when nothing is cut any more ----------

  /** Whatever comes, the buffer does not start with a frame. */
  ghost predicate DeadEnd<T(!new)>(next: Cutter<T>, rest: seq<T>) {
    forall t :: next(rest + t).None?
  }

  lemma {:induction false} DeadEndKeeps<T(!new)>(next: Cutter<T>, rest: seq<T>, chunks: seq<seq<T>>)
    requires Bounded(next) && DeadEnd(next, rest)
    ensures SplitChunks(next, rest, chunks) == Cut([], rest + Concat(chunks))
    decreases |chunks|
  {
    hide Concat;
    if chunks == [] {
      ConcatNone(rest);
    } else {
      var c := chunks[0];
      DeadEndMore(next, rest, c);
      assert next((rest + c) + []).None? && (rest + c) + [] == rest + c;
      assert Split(next, rest + c) == Cut([], rest + c);
      DeadEndKeeps(next, rest + c, chunks[1..]);
      assert chunks == [c] + chunks[1..];
      ConcatFirst(c, chunks[1..]);
      Assoc(rest, c, Concat(chunks[1..]));
    }
  }

  lemma DeadEndMore<T(!new)>(next: Cutter<T>, rest: seq<T>, c: seq<T>)
    requires DeadEnd(next, rest)
    ensures DeadEnd(next, rest + c)
  {
    forall t ensures next((rest + c) + t).None? {
      Assoc(rest, c, t);
    }
  }

  /** Nothing is ever cut again, and the buffer only grows, if and only if no continuation of the buffer
      starts with a frame. */
  lemma DeadEndExactly<T(!new)>(next: Cutter<T>, rest: seq<T>)
    requires Bounded(next)
    ensures (forall chunks :: SplitChunks(next, rest, chunks) == Cut([], rest + Concat(chunks)))
       <==> DeadEnd(next, rest)
  {
    hide Concat, SplitChunks;
    if DeadEnd(next, rest) {
      forall chunks ensures SplitChunks(next, rest, chunks) == Cut([], rest + Concat(chunks)) {
        DeadEndKeeps(next, rest, chunks);
      }
    } else {
      var t :| next(rest + t).Some?;
      FrameAfter(next, rest, t);
    }
  }

  lemma FrameAfter<T(!new)>(next: Cutter<T>, rest: seq<T>, t: seq<T>)
    requires Bounded(next) && next(rest + t).Some?
    ensures SplitChunks(next, rest, [t]).frames != []
  {}

  /** With a self-delimiting cutter every stream is stable. */
  lemma {:induction false} SelfDelimitingIsStable<T(!new)>(next: Cutter<T>, s: seq<T>)
    requires SelfDelimiting(next)
    ensures Stable(next, s)
    decreases |s|
  {
    forall k | 0 <= k <= |s| && next(s[..k]).Some? ensures next(s) == next(s[..k]) {
      assert s == s[..k] + s[k..];
    }
    if next(s).Some? {
      SelfDelimitingIsStable(next, s[next(s).value..]);
    }
  }

  lemma SelfDelimitingSplit<T(!new)>(next: Cutter<T>, chunks: seq<seq<T>>)
    requires SelfDelimiting(next)
    ensures SplitChunks(next, [], chunks) == Split(next, Concat(chunks))
  {
    assert [] + Concat(chunks) == Concat(chunks);
    SelfDelimitingIsStable(next, Concat(chunks));
    StableSplit(next, [], chunks);
  }
}
