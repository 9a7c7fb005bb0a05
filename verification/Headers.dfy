/** Custom request headers: src/protocols/http.c prints them into one C string, and
    src/protocols/lws_http_client.c splits that string in place while a request is sent. */
module Headers {
  import opened SseParse

  datatype Header = Header(name: string, value: string)

  /** The C string in a buffer that holds a NUL. */
  function CString(buffer: seq<char>): (s: string)
    requires NUL in buffer
    ensures NUL !in s && |s| < |buffer|
  {
    assert IndexOf(buffer, NUL) < |buffer| by {
      var i :| 0 <= i < |buffer| && buffer[i] == NUL;
    }
    buffer[..IndexOf(buffer, NUL)]
  }

  lemma CStringAt(buffer: seq<char>, n: nat)
    requires n < |buffer| && buffer[n] == NUL && NUL !in buffer[..n]
    ensures CString(buffer) == buffer[..n]
  {
    assert forall k :: 0 <= k < n ==> buffer[k] == buffer[..n][k];
  }

  lemma EmptyString(buffer: seq<char>)
    requires |buffer| > 0 && buffer[0] == NUL
    ensures NUL in buffer && CString(buffer) == ""
  {
    CStringAt(buffer, 0);
  }

  // ---------- the splitter as a function ----------

  predicate IsBreak(c: char) {
    c in "\r\n"
  }

  /** The number of line break characters at the front. */
  function Breaks(s: string): (n: nat)
    ensures n <= |s| && (n < |s| ==> !IsBreak(s[n]))
    ensures forall k :: 0 <= k < n ==> IsBreak(s[k])
    decreases |s|
  {
    if s != "" && IsBreak(s[0]) then 1 + Breaks(s[1..]) else 0
  }

  /** The number of characters before the first line break character. */
  function LineLength(s: string): (n: nat)
    ensures n <= |s| && (n < |s| ==> IsBreak(s[n]))
    ensures forall k :: 0 <= k < n ==> !IsBreak(s[k])
    decreases |s|
  {
    if s != "" && !IsBreak(s[0]) then 1 + LineLength(s[1..]) else 0
  }

  function SkipSpaces(s: string): string
    decreases |s|
  {
    if s != "" && s[0] == ' ' then SkipSpaces(s[1..]) else s
  }

  function HeadersOfLine(line: string): seq<Header> {
    var colon := IndexOf(line, ':');
    if colon < |line| then [Header(line[..colon], SkipSpaces(line[colon + 1..]))] else []
  }

  /** What one line leaves after the break character that ended it. */
  function AfterLine(s: string): string {
    var n := LineLength(s);
    if n < |s| then s[n + 1..] else ""
  }

  function SplitHeaders(s: string): seq<Header>
    decreases |s|
  {
    var line := s[Breaks(s)..];
    if line == "" then [] else HeadersOfLine(line[..LineLength(line)]) + SplitHeaders(AfterLine(line))
  }

  lemma {:induction false} NoColonNoHeader(s: string)
    requires ':' !in s
    ensures SplitHeaders(s) == []
    decreases |s|
  {
    var line := s[Breaks(s)..];
    if line != "" {
      NoColonNoHeader(AfterLine(line));
    }
  }

  /** The string that a pass leaves: up to the colon of the first line, or to its end. */
  function Leftover(s: string): (left: string)
    ensures left <= s
  {
    var line := s[Breaks(s)..];
    s[..Breaks(s) + IndexOf(line[..LineLength(line)], ':')]
  }

  /** It holds no header. */
  lemma LeftoverHoldsNone(s: string)
    ensures SplitHeaders(Leftover(s)) == []
  {
    hide Breaks, LineLength, IndexOf;
    var b := Breaks(s);
    var line := s[b..];
    var text := line[..LineLength(line)];
    var left := Leftover(s);
    forall k | 0 <= k < |left| ensures left[k] != ':' {
      assert left[k] == s[k];
      if k < b {
        assert IsBreak(s[k]);
      } else {
        assert s[k] == text[k - b];
      }
    }
    NoColonNoHeader(left);
  }

  // ---------- printing and splitting ----------

  function Print(h: Header): string {
    h.name + ": " + h.value + "\r\n"
  }

  function PrintAll(hs: seq<Header>): string {
    if hs == [] then "" else PrintAll(hs[..|hs| - 1]) + Print(hs[|hs| - 1])
  }

  predicate Plain(s: string) {
    '\r' !in s && '\n' !in s && NUL !in s
  }

  /** What a caller must keep to for its header to come back. */
  predicate Good(h: Header) {
    Plain(h.name) && ':' !in h.name && Plain(h.value) && (h.value != "" ==> h.value[0] != ' ')
  }

  lemma PlainConcat(a: string, b: string)
    requires Plain(a) && Plain(b)
    ensures Plain(a + b)
  {}

  lemma ColonAt(name: string, rest: string)
    requires ':' !in name
    ensures IndexOf(name + ":" + rest, ':') == |name|
  {
    var text := name + ":" + rest;
    assert text[|name|] == ':' && forall k :: 0 <= k < |name| ==> text[k] == name[k] && name[k] in name;
  }

  lemma TextOfHeader(h: Header)
    requires Good(h)
    ensures var text := h.name + ": " + h.value;
            HeadersOfLine(text) == [h] && Plain(text)
  {
    hide Plain, IndexOf;
    var text := h.name + ": " + h.value;
    assert Plain(": ") by { ColonPlain(); }
    PlainConcat(h.name, ": ");
    PlainConcat(h.name + ": ", h.value);
    assert text == h.name + ":" + (" " + h.value);
    ColonAt(h.name, " " + h.value);
    assert text[..|h.name|] == h.name && text[|h.name| + 1..] == " " + h.value;
    assert (" " + h.value)[1..] == h.value;
    assert SkipSpaces(" " + h.value) == h.value;
  }

  lemma ColonPlain()
    ensures Plain(": ")
  {}

  lemma LineEnds(text: string, rest: string)
    requires Plain(text) && text != ""
    ensures var s := text + "\r\n" + rest;
            Breaks(s) == 0 && s[..LineLength(s)] == text && AfterLine(s) == "\n" + rest
  {
    hide LineLength, Breaks;
    var s := text + "\r\n" + rest;
    assert forall k :: 0 <= k < |text| ==> s[k] == text[k] && text[k] in text;
    assert s[|text|] == '\r' && !IsBreak(s[0]);
    assert LineLength(s) == |text| && s[..|text|] == text;
    assert s[|text| + 1..] == "\n" + rest;
  }

  lemma LineOf(h: Header, rest: string)
    requires Good(h)
    ensures SplitHeaders(Print(h) + rest) == [h] + SplitHeaders("\n" + rest)
  {
    hide SplitHeaders, Good, Plain, HeadersOfLine, LineLength, Breaks, AfterLine;
    var text := h.name + ": " + h.value;
    assert Print(h) + rest == text + "\r\n" + rest;
    TextOfHeader(h);
    LineEnds(text, rest);
    SplitFirst(Print(h) + rest);
  }

  lemma SplitFirst(s: string)
    requires s != "" && Breaks(s) == 0
    ensures SplitHeaders(s) == HeadersOfLine(s[..LineLength(s)]) + SplitHeaders(AfterLine(s))
  {
    assert s[0..] == s;
  }

  lemma SkipBreak(s: string)
    ensures SplitHeaders("\n" + s) == SplitHeaders(s)
  {
    var t := "\n" + s;
    assert t[1..] == s && Breaks(t) == 1 + Breaks(s);
    assert t[Breaks(t)..] == s[Breaks(s)..];
  }

  /** Any list of good headers is split back into itself, in order. */
  lemma {:induction false} SplitOfPrint(hs: seq<Header>, rest: string)
    requires forall i :: 0 <= i < |hs| ==> Good(hs[i])
    ensures SplitHeaders(PrintAll(hs) + rest) == hs + SplitHeaders(rest)
    decreases |hs|
  {
    hide SplitHeaders, Good, Print;
    if hs == [] {
      assert PrintAll(hs) + rest == rest;
    } else {
      var init, h := hs[..|hs| - 1], hs[|hs| - 1];
      assert PrintAll(hs) + rest == PrintAll(init) + (Print(h) + rest);
      SplitOfPrint(init, Print(h) + rest);
      LineOf(h, rest);
      SkipBreak(rest);
      assert hs + SplitHeaders(rest) == init + ([h] + SplitHeaders(rest));
    }
  }

  lemma {:induction false} SkipSpacesRest(s: string)
    ensures |SkipSpaces(s)| <= |s| && SkipSpaces(s) == s[|s| - |SkipSpaces(s)|..]
    ensures SkipSpaces(s) != "" ==> SkipSpaces(s)[0] != ' '
    decreases |s|
  {
    if s != "" && s[0] == ' ' {
      SkipSpacesRest(s[1..]);
    }
  }

  lemma PlainSlice(s: string, lo: nat, hi: nat)
    requires Plain(s) && lo <= hi <= |s|
    ensures Plain(s[lo..hi])
  {
    assert forall c :: c in s[lo..hi] ==> c in s;
  }

  lemma LineGood(line: string)
    requires Plain(line)
    ensures forall h :: h in HeadersOfLine(line) ==> Good(h)
  {
    hide SkipSpaces, IndexOf, Plain;
    var colon := IndexOf(line, ':');
    if colon < |line| {
      var rest := line[colon + 1..];
      PlainSlice(line, 0, colon);
      PlainSlice(line, colon + 1, |line|);
      assert line[0..colon] == line[..colon] && line[colon + 1..|line|] == rest;
      SkipSpacesRest(rest);
      PlainSlice(rest, |rest| - |SkipSpaces(rest)|, |rest|);
      assert rest[|rest| - |SkipSpaces(rest)|..|rest|] == SkipSpaces(rest);
    }
  }

  /** Whatever the string, the splitter only yields headers a caller could have added. */
  lemma {:induction false} SplitGood(s: string)
    requires NUL !in s
    ensures forall h :: h in SplitHeaders(s) ==> Good(h)
    decreases |s|
  {
    hide Good, HeadersOfLine;
    var line := s[Breaks(s)..];
    if line != "" {
      var text := line[..LineLength(line)];
      assert forall k :: 0 <= k < |text| ==> !IsBreak(text[k]);
      LineGood(text);
      SplitGood(AfterLine(line));
    }
  }

  lemma {:induction false} PrintNulFree(hs: seq<Header>)
    requires forall i :: 0 <= i < |hs| ==> NUL !in hs[i].name && NUL !in hs[i].value
    ensures NUL !in PrintAll(hs)
  {
    if hs != [] {
      PrintNulFree(hs[..|hs| - 1]);
    }
  }

  /** A list of headers, none of which holds a NUL, is split back into itself if and only if each is
      good: names without colon or line break, values without line break or leading space. */
  lemma PrintSplitRoundTrip(hs: seq<Header>)
    requires forall i :: 0 <= i < |hs| ==> NUL !in hs[i].name && NUL !in hs[i].value
    ensures SplitHeaders(PrintAll(hs)) == hs <==> forall i :: 0 <= i < |hs| ==> Good(hs[i])
  {
    hide Good, SplitHeaders, PrintAll;
    if forall i :: 0 <= i < |hs| ==> Good(hs[i]) {
      SplitOfPrint(hs, "");
      NothingSplit();
      assert PrintAll(hs) + "" == PrintAll(hs);
    }
    PrintNulFree(hs);
    SplitGood(PrintAll(hs));
  }

  lemma NothingSplit()
    ensures SplitHeaders("") == []
  {}

  lemma PrintOneMore(hs: seq<Header>, h: Header)
    ensures PrintAll(hs + [h]) == PrintAll(hs) + Print(h)
  {
    assert (hs + [h])[..|hs|] == hs;
  }

  // ---------- http_ctx_add_header ----------

  /** strcat: s goes where the string in the buffer ends. */
  method Strcat(buffer: array<char>, s: string)
    requires NUL in buffer[..] && NUL !in s && |CString(buffer[..])| + |s| < buffer.Length
    modifies buffer
    ensures NUL in buffer[..] && CString(buffer[..]) == old(CString(buffer[..])) + s
  {
    ghost var was := CString(buffer[..]);
    assert buffer[..][|was|] == NUL;
    var n := 0;
    while buffer[n] != NUL
      invariant 0 <= n <= |was| && NUL !in buffer[..n]
      decreases |was| - n
    {
      n := n + 1;
    }
    CStringAt(buffer[..], n);
    forall i | 0 <= i < |s| {
      buffer[n + i] := s[i];
    }
    buffer[n + |s|] := NUL;
    assert buffer[..n + |s|] == was + s;
    assert buffer[..][n + |s|] == NUL;
    CStringAt(buffer[..], n + |s|);
  }

  class HttpContext {
    var headers: array?<char>

    ghost predicate Valid()
      reads this, headers
    {
      headers == null || NUL in headers[..]
    }

    ghost function Text(): string
      reads this, headers
      requires Valid()
    {
      if headers == null then "" else CString(headers[..])
    }

    constructor ()
      ensures Valid() && headers == null && Text() == ""
    {
      headers := null;
    }

    method Current() returns (current: string)
      requires Valid()
      ensures Valid() && current == Text()
    {
      current := "";
      if headers != null {
        current := CString(headers[..]);
      }
    }

    /** http_ctx_add_header: every strcat stays within the length computed for the new buffer. */
    method AddHeader(h: Header)
      requires Valid() && NUL !in h.name && NUL !in h.value
      modifies this
      ensures Valid() && headers != null && fresh(headers) && Text() == old(Text()) + Print(h)
      ensures headers.Length == |old(Text())| + (|h.name| + 1) + (|h.value| + 1) + 4
    {
      hide CString, Print;
      var current := Current();
      var newLength := |current| + (|h.name| + 1) + (|h.value| + 1) + 4;
      var newHeader := new char[newLength](i => NUL);
      EmptyString(newHeader[..]);
      Strcat(newHeader, current);
      assert "" + current == current;
      PrintInto(newHeader, h);
      headers := newHeader;
    }
  }

  /** The four strcats that append a header. */
  method PrintInto(buffer: array<char>, h: Header)
    requires NUL !in h.name && NUL !in h.value && NUL in buffer[..]
    requires |CString(buffer[..])| + |h.name| + |h.value| + 4 < buffer.Length
    modifies buffer
    ensures NUL in buffer[..] && CString(buffer[..]) == old(CString(buffer[..])) + Print(h)
  {
    hide CString;
    ghost var text := CString(buffer[..]);
    Strcat(buffer, h.name);
    Strcat(buffer, ": ");
    Strcat(buffer, h.value);
    Strcat(buffer, "\r\n");
    assert text + h.name + ": " + h.value + "\r\n" == text + Print(h);
  }

  // ---------- the in-place splitter ----------

  /** strtok_r, first part: over the line break characters. */
  method SkipBreaks(headers: array<char>, from: nat, ghost n: nat) returns (start: nat)
    requires from <= n < headers.Length && headers[n] == NUL && NUL !in headers[from..n]
    ensures start == from + Breaks(headers[from..n]) <= n
    ensures headers[start] == NUL <==> start == n
  {
    start := from;
    while headers[start] != NUL && IsBreak(headers[start])
      invariant from <= start <= n
      invariant from + Breaks(headers[from..n]) == start + Breaks(headers[start..n])
      decreases n - start
    {
      assert headers[start..n][1..] == headers[start + 1..n];
      start := start + 1;
    }
    assert start < n ==> headers[start] == headers[from..n][start - from];
  }

  /** strtok_r, second part: to the next line break character or the end of the string. */
  method LineEnd(headers: array<char>, start: nat, ghost n: nat) returns (end: nat)
    requires start <= n < headers.Length && headers[n] == NUL && NUL !in headers[start..n]
    ensures end == start + LineLength(headers[start..n]) <= n
    ensures headers[end] == NUL <==> end == n
  {
    end := start;
    while headers[end] != NUL && !IsBreak(headers[end])
      invariant start <= end <= n
      invariant start + LineLength(headers[start..n]) == end + LineLength(headers[end..n])
      decreases n - end
    {
      assert headers[end..n][1..] == headers[end + 1..n];
      end := end + 1;
    }
    assert end < n ==> headers[end] == headers[start..n][end - start];
  }

  /** strchr and strlen: the first c, or the end of the string. */
  method FindInString(headers: array<char>, start: nat, ghost n: nat, c: char) returns (i: nat)
    requires start <= n < headers.Length && headers[n] == NUL && NUL !in headers[start..n]
    ensures i == start + IndexOf(headers[start..n], c) <= n
    ensures headers[i] == NUL <==> i == n
  {
    i := start;
    while headers[i] != NUL && headers[i] != c
      invariant start <= i <= n
      invariant start + IndexOf(headers[start..n], c) == i + IndexOf(headers[i..n], c)
      decreases n - i
    {
      assert headers[i..n][1..] == headers[i + 1..n];
      i := i + 1;
    }
    assert i < n ==> headers[i] == headers[start..n][i - start];
  }

  method OverSpaces(headers: array<char>, from: nat, end: nat) returns (value: nat)
    requires from <= end < headers.Length && headers[end] == NUL
    ensures from <= value <= end && headers[value..end] == SkipSpaces(headers[from..end])
  {
    value := from;
    while headers[value] == ' '
      invariant from <= value <= end
      invariant SkipSpaces(headers[from..end]) == SkipSpaces(headers[value..end])
      decreases end - value
    {
      assert headers[value..end][1..] == headers[value + 1..end];
      value := value + 1;
    }
  }

  /** The name and value of the line at start..end; the colon becomes a NUL. stop is where the string
      at start ends afterwards. */
  method TakeHeader(headers: array<char>, start: nat, end: nat) returns (one: seq<Header>, ghost stop: nat)
    requires start <= end < headers.Length && headers[end] == NUL && NUL !in headers[start..end]
    modifies headers
    ensures one == HeadersOfLine(old(headers[start..end]))
    ensures stop == start + IndexOf(old(headers[start..end]), ':') <= end && headers[stop] == NUL
    ensures headers[start..stop] == old(headers[start..end])[..stop - start]
    ensures forall i :: 0 <= i < headers.Length && !(start <= i < end) ==> headers[i] == old(headers[i])
  {
    hide SkipSpaces, IndexOf;
    ghost var line := headers[start..end];
    var colon := FindInString(headers, start, end, ':');
    stop := colon;
    if headers[colon] == NUL {
      assert headers[start..colon] == line[..colon - start];
      return [], colon;
    }
    headers[colon] := NUL;
    var value := colon + 1;
    assert line[..colon - start] == headers[start..colon];
    assert line[colon - start + 1..] == headers[value..end];
    value := OverSpaces(headers, value, end);
    one := [Header(headers[start..colon], headers[value..end])];
  }

  /** The splitter has gone over the string up to from; what follows is untouched and still to split. */
  ghost predicate Progress(was: seq<char>, now: seq<char>, n: nat, from: nat, done: seq<Header>) {
    && |now| == |was| && from <= n < |was| && was[n] == NUL && NUL !in was[..n]
    && now[from..] == was[from..]
    && SplitHeaders(was[..n]) == done + SplitHeaders(was[from..n])
  }

  lemma ProgressFacts(was: seq<char>, now: seq<char>, n: nat, from: nat, done: seq<Header>)
    requires Progress(was, now, n, from, done)
    ensures now[n] == NUL && now[from..n] == was[from..n] && NUL !in now[from..n]
  {
    assert was[from..][..n - from] == was[from..n] && now[from..][..n - from] == now[from..n];
    assert now[from..][n - from] == was[from..][n - from];
    assert forall c :: c in was[from..n] ==> c in was[..n];
  }

  /** One line of the string at from..n: start..end is the line, save the place after it. */
  lemma SplitLine(was: seq<char>, n: nat, from: nat, start: nat, end: nat, save: nat)
    requires from <= n <= |was| && start == from + Breaks(was[from..n]) < n
    requires end == start + LineLength(was[start..n]) <= n && save == if end < n then end + 1 else end
    ensures SplitHeaders(was[from..n]) == HeadersOfLine(was[start..end]) + SplitHeaders(was[save..n])
  {
    hide *;
    var line := was[start..n];
    TailSlice(was, from, start, n);
    SplitUnfold(was[from..n]);
    HeadSlice(was, start, end, n);
    AfterSlice(was, start, n);
  }

  lemma SplitUnfold(s: string)
    ensures var line := s[Breaks(s)..];
            line != "" ==> SplitHeaders(s) == HeadersOfLine(line[..LineLength(line)]) + SplitHeaders(AfterLine(line))
  {}

  lemma TailSlice(was: string, from: nat, start: nat, n: nat)
    requires from <= start <= n <= |was|
    ensures was[from..n][start - from..] == was[start..n]
  {}

  lemma HeadSlice(was: string, start: nat, end: nat, n: nat)
    requires start <= end <= n <= |was|
    ensures was[start..n][..end - start] == was[start..end]
  {}

  lemma AfterSlice(was: string, start: nat, n: nat)
    requires start <= n <= |was|
    ensures var end := start + LineLength(was[start..n]);
            AfterLine(was[start..n]) == was[if end < n then end + 1 else end..n]
  {}

  lemma StillUntouched(was: seq<char>, now: seq<char>, after: seq<char>, from: nat, save: nat)
    requires from <= save <= |now| == |was| == |after| && now[from..] == was[from..]
    requires forall i :: save <= i < |now| ==> after[i] == now[i]
    ensures after[save..] == was[save..]
  {
    assert now[from..][save - from..] == was[from..][save - from..];
    assert now[save..] == was[save..];
  }

  lemma ProgressStep(was: seq<char>, now: seq<char>, after: seq<char>, n: nat, from: nat, start: nat, end: nat,
                     save: nat, done: seq<Header>)
    requires Progress(was, now, n, from, done)
    requires start == from + Breaks(was[from..n]) < n && end == start + LineLength(was[start..n]) <= n
    requires save == if end < n then end + 1 else end
    requires |after| == |now| && forall i :: save <= i < |now| ==> after[i] == now[i]
    ensures Progress(was, after, n, save, done + HeadersOfLine(was[start..end]))
  {
    hide HeadersOfLine, Breaks, LineLength, SplitHeaders;
    SplitLine(was, n, from, start, end, save);
    StillUntouched(was, now, after, from, save);
  }

  lemma ProgressEnd(was: seq<char>, now: seq<char>, n: nat, from: nat, done: seq<Header>)
    requires Progress(was, now, n, from, done) && from + Breaks(was[from..n]) == n
    ensures done == SplitHeaders(was[..n]) && Leftover(was[from..n]) == now[from..n]
  {
    hide Breaks;
    var s := was[from..n];
    assert s[Breaks(s)..] == "";
    assert SplitHeaders(s) == [];
    assert now[from..][..n - from] == was[from..][..n - from];
    assert now[from..n] == s && s[..|s|] == s;
  }

  /** The first line of the string is start..end, and its colon, or its end, is at stop. */
  lemma LeftoverAt(was: seq<char>, n: nat, from: nat, start: nat, end: nat, stop: nat)
    requires from <= n <= |was| && start == from + Breaks(was[from..n]) <= n
    requires end == start + LineLength(was[start..n]) <= n && stop == start + IndexOf(was[start..end], ':') <= end
    ensures Leftover(was[from..n]) == was[from..stop]
  {
    hide Breaks, LineLength, IndexOf;
    TailSlice(was, from, start, n);
    HeadSlice(was, start, end, n);
    HeadSlice(was, from, stop, n);
  }

  /** What the turn leaves before stop is what was there. */
  lemma BeforeStop(was: seq<char>, now: seq<char>, from: nat, start: nat, end: nat, stop: nat)
    requires from <= start <= stop <= end <= |was| == |now|
    requires forall k :: from <= k < start ==> now[k] == was[k]
    requires now[start..stop] == was[start..end][..stop - start]
    ensures now[from..stop] == was[from..stop]
  {
    HeadSlice(was, start, stop, end);
    forall k | start <= k < stop ensures now[k] == was[k] {
      assert now[k] == now[start..stop][k - start] && was[k] == was[start..stop][k - start];
    }
  }

  /** One turn of the loop. stop is where the string at from ends afterwards. */
  method SplitNext(headers: array<char>, from: nat, ghost was: seq<char>, ghost n: nat, ghost done: seq<Header>)
    returns (more: bool, one: seq<Header>, save: nat, ghost stop: nat)
    requires Progress(was, headers[..], n, from, done)
    modifies headers
    ensures from <= stop < headers.Length && headers[stop] == NUL
    ensures from <= n <= |was| && headers[from..stop] == Leftover(was[from..n])
    ensures forall i :: 0 <= i < from ==> headers[i] == old(headers[i])
    ensures more ==>
      && from < save <= n && (stop < save || stop == save == n)
      && Progress(was, headers[..], n, save, done + one)
    ensures !more ==> headers[..] == old(headers[..]) && done == SplitHeaders(was[..n])
  {
    hide SplitHeaders, HeadersOfLine, Breaks, LineLength, Leftover, IndexOf;
    ghost var now := headers[..];
    ProgressFacts(was, now, n, from, done);
    assert now[from..n] == headers[from..n];
    var start := SkipBreaks(headers, from, n);
    if headers[start] == NUL {
      ProgressEnd(was, now, n, from, done);
      return false, [], from, n;
    }
    TailSlice(was, from, start, n);
    TailSlice(now, from, start, n);
    assert headers[start..n] == now[start..n];
    var end := LineEnd(headers, start, n);
    HeadSlice(was, start, end, n);
    HeadSlice(now, start, end, n);
    assert now[start..end] == was[start..end];
    more, one, save, stop := TakeLine(headers, from, start, end, n, was, now, done);
  }

  /** The rest of the turn, from the end of the line on. */
  method TakeLine(headers: array<char>, ghost from: nat, start: nat, end: nat, ghost n: nat, ghost was: seq<char>,
                  ghost now: seq<char>, ghost done: seq<Header>)
    returns (more: bool, one: seq<Header>, save: nat, ghost stop: nat)
    requires Progress(was, now, n, from, done) && headers[..] == now
    requires from <= n && start == from + Breaks(was[from..n]) < n && end == start + LineLength(was[start..n]) <= n
    requires now[start..end] == was[start..end] && now[from..start] == was[from..start]
    requires NUL !in was[start..end] && start < end && (headers[end] == NUL <==> end == n)
    modifies headers
    ensures more && from < save <= n && (stop < save || stop == save == n)
    ensures from <= stop < headers.Length && headers[stop] == NUL
    ensures headers[from..stop] == Leftover(was[from..n])
    ensures forall i :: 0 <= i < from ==> headers[i] == old(headers[i])
    ensures Progress(was, headers[..], n, save, done + one)
  {
    hide SplitHeaders, HeadersOfLine, Breaks, LineLength, Leftover, IndexOf;
    save := end;
    if headers[end] != NUL {
      headers[end] := NUL;
      save := end + 1;
    }
    assert headers[start..end] == was[start..end];
    one, stop := TakeHeader(headers, start, end);
    ProgressStep(was, now, headers[..], n, from, start, end, save, done);
    LeftoverAt(was, n, from, start, end, stop);
    assert forall k :: from <= k < start ==> headers[k] == now[from..start][k - from] == was[from..start][k - from];
    BeforeStop(was, headers[..], from, start, end, stop);
    assert headers[from..stop] == headers[..][from..stop];
    more := true;
  }

  /** One pass over the headers string. It yields the headers printed into it, and leaves a string in
      which a second pass finds none: in general the name of the first header. */
  method SplitInPlace(headers: array<char>) returns (out: seq<Header>)
    requires NUL in headers[..]
    modifies headers
    ensures out == SplitHeaders(old(CString(headers[..])))
    ensures NUL in headers[..] && CString(headers[..]) == Leftover(old(CString(headers[..])))
    ensures SplitHeaders(CString(headers[..])) == []
  {
    hide SplitHeaders, Progress, Leftover;
    ghost var was := headers[..];
    ghost var n := |CString(was)|;
    out := [];
    ProgressStart(was);
    assert headers[..] == was && was[0..n] == was[..n];
    var more, one, save, stop := SplitNext(headers, 0, was, n, out);
    while more
      invariant 0 <= stop < headers.Length && headers[stop] == NUL && headers[..stop] == Leftover(was[..n])
      invariant more ==>
        && save <= n && (stop < save || stop == save == n)
        && Progress(was, headers[..], n, save, out + one)
      invariant !more ==> out == SplitHeaders(was[..n])
      decreases more, n - save
    {
      out := out + one;
      ghost var before := headers[..];
      ghost var ignored;
      more, one, save, ignored := SplitNext(headers, save, was, n, out);
      assert headers[..stop] == before[..stop];
    }
    LeftoverString(headers[..], was[..n], stop);
    LeftoverHoldsNone(was[..n]);
  }

  lemma LeftoverString(buffer: seq<char>, s: string, stop: nat)
    requires stop < |buffer| && buffer[stop] == NUL && NUL !in s && buffer[..stop] == Leftover(s)
    ensures NUL in buffer && CString(buffer) == Leftover(s)
  {
    hide Leftover;
    assert forall k :: 0 <= k < stop ==> buffer[k] == Leftover(s)[k] == s[k] && s[k] in s;
    CStringAt(buffer, stop);
  }

  lemma ProgressStart(was: seq<char>)
    requires NUL in was
    ensures Progress(was, was, |CString(was)|, 0, []) && was[..|CString(was)|] == CString(was)
  {
    assert was[0..|CString(was)|] == was[..|CString(was)|];
  }

  /** One http_ctx_add_header after the other, on a new request. */
  method AddAll(ctx: HttpContext, hs: seq<Header>)
    requires ctx.Valid() && ctx.headers == null
    requires forall i :: 0 <= i < |hs| ==> NUL !in hs[i].name && NUL !in hs[i].value
    modifies ctx
    ensures ctx.Valid() && ctx.Text() == PrintAll(hs)
    ensures if hs == [] then ctx.headers == null else ctx.headers != null && fresh(ctx.headers)
  {
    hide PrintAll, Print, CString;
    NothingPrinted();
    assert hs[..0] == [];
    for i := 0 to |hs|
      invariant ctx.Valid() && ctx.Text() == PrintAll(hs[..i])
      invariant if i == 0 then ctx.headers == null else ctx.headers != null && fresh(ctx.headers)
    {
      PrintOneMore(hs[..i], hs[i]);
      assert hs[..i + 1] == hs[..i] + [hs[i]];
      ctx.AddHeader(hs[i]);
    }
    assert hs[..|hs|] == hs;
  }

  /** Headers added to a request one by one come back from the splitter, in order, if and only if they
      are good; when the request is sent again none of them does. */
  method AddAndSplit(hs: seq<Header>) returns (out: seq<Header>, again: seq<Header>)
    requires forall i :: 0 <= i < |hs| ==> NUL !in hs[i].name && NUL !in hs[i].value
    ensures out == hs <==> forall i :: 0 <= i < |hs| ==> Good(hs[i])
    ensures out == SplitHeaders(PrintAll(hs)) && again == []
  {
    hide SplitHeaders, PrintAll, Print, CString, Leftover;
    var ctx := new HttpContext();
    AddAll(ctx, hs);
    out, again := [], [];
    NothingSplit();
    NothingPrinted();
    PrintSplitRoundTrip(hs);
    if ctx.headers != null {
      out := SplitInPlace(ctx.headers);
      again := SplitInPlace(ctx.headers);
    }
  }

  // ---------- a request that is sent again ----------

  lemma LeftoverOfLine(text: string, rest: string)
    requires Plain(text) && text != ""
    ensures Leftover(text + "\r\n" + rest) == text[..IndexOf(text, ':')]
  {
    hide Breaks, LineLength, IndexOf, Plain;
    var s := text + "\r\n" + rest;
    LineEnds(text, rest);
    assert s[0..] == s;
    HeadSlice(s, 0, IndexOf(text, ':'), |text|);
    assert s[0..|text|] == text;
  }

  lemma PrintedLine(h: Header, rest: string)
    requires Good(h)
    ensures Leftover(Print(h) + rest) == h.name
  {
    hide Leftover, Plain, Good, IndexOf;
    var text := h.name + ": " + h.value;
    TextOfHeader(h);
    GoodName(h);
    ColonAt(h.name, " " + h.value);
    assert text == h.name + ":" + (" " + h.value);
    LeftoverOfLine(text, rest);
    assert Print(h) + rest == text + "\r\n" + rest;
    assert text[..|h.name|] == h.name;
  }

  /** After a pass over printed headers the first one's name is left. */
  lemma LeftoverOfPrint(hs: seq<Header>)
    requires hs != [] && forall i :: 0 <= i < |hs| ==> Good(hs[i])
    ensures Leftover(PrintAll(hs)) == hs[0].name
  {
    hide PrintAll, Print, Leftover, Good;
    var rest := PrintFirst(hs);
    assert Good(hs[0]);
    PrintedLine(hs[0], rest);
  }

  lemma GoodName(h: Header)
    requires Good(h)
    ensures ':' !in h.name
  {}

  lemma {:induction false} PrintFirst(hs: seq<Header>) returns (rest: string)
    requires hs != []
    ensures PrintAll(hs) == Print(hs[0]) + rest
    decreases |hs|
  {
    hide Print;
    var n := |hs| - 1;
    if n == 0 {
      assert hs[..0] == [] && PrintAll([]) == "";
      rest := "";
    } else {
      var tail := PrintFirst(hs[..n]);
      rest := tail + Print(hs[n]);
      assert (Print(hs[0]) + tail) + Print(hs[n]) == Print(hs[0]) + rest;
    }
  }

  /** A header added for the second send is taken with that name in front of its own. */
  function Prefixed(hs: seq<Header>, h: Header): Header {
    if hs == [] then h else Header(hs[0].name + h.name, h.value)
  }

  lemma PrefixedGood(hs: seq<Header>, h: Header)
    requires Good(h) && forall i :: 0 <= i < |hs| ==> Good(hs[i])
    ensures Good(Prefixed(hs, h))
    ensures hs != [] ==> Print(Prefixed(hs, h)) == hs[0].name + Print(h)
  {
    if hs != [] {
      assert Good(hs[0]);
      assert Print(Prefixed(hs, h)) == hs[0].name + Print(h);
    }
  }

  lemma PrintOne(h: Header)
    ensures PrintAll([h]) == Print(h)
  {
    assert [h][..0] == [] && PrintAll([]) == "" && "" + Print(h) == Print(h);
  }

  /** A request sent, given one more header and sent again. The second send does not carry the headers
      of the first, and carries the new one under the first one's name and its own run together. */
  method SendTwice(hs: seq<Header>, h: Header) returns (first: seq<Header>, second: seq<Header>)
    requires Good(h) && forall i :: 0 <= i < |hs| ==> Good(hs[i])
    ensures first == hs && second == [Prefixed(hs, h)]
  {
    hide SplitHeaders, PrintAll, Print, CString, Leftover, Good;
    var ctx := new HttpContext();
    assert forall i :: 0 <= i < |hs| ==> NUL !in hs[i].name && NUL !in hs[i].value by { GoodNulFree(hs); }
    AddAll(ctx, hs);
    PrintSplitRoundTrip(hs);
    first := [];
    NothingSplit();
    NothingPrinted();
    if ctx.headers != null {
      first := SplitInPlace(ctx.headers);
      LeftoverOfPrint(hs);
    }
    assert NUL !in h.name && NUL !in h.value by { GoodNulFree([h]); assert [h][0] == h; }
    ctx.AddHeader(h);
    second := SplitInPlace(ctx.headers);
    PrefixedGood(hs, h);
    var p := Prefixed(hs, h);
    PrintOne(p);
    GoodNulFree([p]);
    PrintSplitRoundTrip([p]);
    assert "" + Print(h) == Print(h);
  }

  lemma GoodNulFree(hs: seq<Header>)
    requires forall i :: 0 <= i < |hs| ==> Good(hs[i])
    ensures forall i :: 0 <= i < |hs| ==> NUL !in hs[i].name && NUL !in hs[i].value
  {}

  lemma NothingPrinted()
    ensures PrintAll([]) == ""
  {}
}
