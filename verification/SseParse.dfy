/** One event block of src/protocols/http_libs.c: its lines, what the line loop makes of them, and
    rendering as the inverse. A char stands for one byte of the stream. */
module SseParse {
  import opened Wrappers

  /** What the callback finds in the context after a block was parsed. */
  datatype Message = Message(event: Option<string>, data: Option<string>)

  const KEY_LIMIT := 127
  const VALUE_LIMIT := 15359

  // ---------- lines ----------

  /** The position of the first c, or the length. */
  function IndexOf(s: string, c: char): (i: nat)
    ensures i <= |s| && (i < |s| ==> s[i] == c)
    ensures forall k :: 0 <= k < i ==> s[k] != c
    decreases |s|
  {
    if s == "" || s[0] == c then 0 else 1 + IndexOf(s[1..], c)
  }

  function StripCr(line: string): string {
    if line != "" && line[|line| - 1] == '\r' then line[..|line| - 1] else line
  }

  /** Lines end at LF, a CR before it is not part of them; the last line may lack its LF. */
  function Lines(s: string): seq<string>
    decreases |s|
  {
    if s == "" then []
    else
      var i := IndexOf(s, '\n');
      [StripCr(s[..i])] + if i < |s| then Lines(s[i + 1..]) else []
  }

  // ---------- fields ----------

  predicate IsSpace(c: char) {
    c in " \t\n\r" || c == '\U{0B}' || c == '\U{0C}'
  }

  function TrimEnd(s: string): string
    decreases |s|
  {
    if s != "" && IsSpace(s[|s| - 1]) then TrimEnd(s[..|s| - 1]) else s
  }

  function TrimStart(s: string): string
    decreases |s|
  {
    if s != "" && IsSpace(s[0]) then TrimStart(s[1..]) else s
  }

  const NUL := '\0'

  /** The C string that starts where s does. */
  function CPart(s: string): string {
    s[..IndexOf(s, NUL)]
  }

  /** strchr finds a colon in the line. */
  predicate HasField(line: string) {
    IndexOf(line, ':') < IndexOf(line, NUL)
  }

  function Key(line: string): string
    requires HasField(line)
  {
    TrimEnd(line[..IndexOf(line, ':')])
  }

  /** The bytes copied into the value buffer. */
  function Copied(line: string): string
    requires HasField(line)
  {
    TrimStart(line[IndexOf(line, ':') + 1..])
  }

  function Value(line: string): string
    requires HasField(line)
  {
    CPart(Copied(line))
  }

  /** Key and value fit their buffers. A blank value does not: the skip over leading space runs past
      the line, and the length of the value wraps around. */
  predicate Fits(line: string) {
    HasField(line) ==> |Key(line)| <= KEY_LIMIT && 1 <= |Copied(line)| <= VALUE_LIMIT
  }

  predicate StartsNul(line: string) {
    line != "" && line[0] == NUL
  }

  /** How many lines the loop takes: it ends before a later line that starts with a NUL. */
  function Taken(lines: seq<string>, i: nat): (n: nat)
    requires i <= |lines|
    ensures i <= n <= |lines|
    decreases |lines| - i
  {
    if i == |lines| || (i > 0 && StartsNul(lines[i])) then i else Taken(lines, i + 1)
  }

  function TakenLines(block: string): seq<string> {
    Lines(block)[..Taken(Lines(block), 0)]
  }

  predicate AllFit(lines: seq<string>) {
    forall i :: 0 <= i < |lines| ==> Fits(lines[i])
  }

  predicate Names(line: string, name: string) {
    HasField(line) && Key(line) == name
  }

  /** The value of the last line with this key. */
  function LastValue(lines: seq<string>, name: string): Option<string> {
    if lines == [] then None
    else
      var line := lines[|lines| - 1];
      if Names(line, name) then Some(Value(line)) else LastValue(lines[..|lines| - 1], name)
  }

  function Fields(lines: seq<string>): Message {
    Message(LastValue(lines, "event"), LastValue(lines, "data"))
  }

  /** None when the source would write outside its buffers. */
  function Parse(block: string): Option<Message> {
    if AllFit(TakenLines(block)) then Some(Fields(TakenLines(block))) else None
  }

  lemma LastValueOne(lines: seq<string>, line: string, name: string)
    ensures LastValue(lines + [line], name) == if Names(line, name) then Some(Value(line)) else LastValue(lines, name)
  {
    assert (lines + [line])[..|lines|] == lines;
  }

  // ---------- the line loop ----------

  lemma {:induction false} TrimEndCut(s: string)
    ensures |TrimEnd(s)| <= |s| && TrimEnd(s) == s[..|TrimEnd(s)|]
    decreases |s|
  {
    if s != "" && IsSpace(s[|s| - 1]) {
      TrimEndCut(s[..|s| - 1]);
    }
  }

  method KeyOf(line: string, colon: nat) returns (key: string)
    requires colon < |line|
    ensures key == TrimEnd(line[..colon])
  {
    var keyLen := colon;
    while keyLen > 0 && IsSpace(line[keyLen - 1])
      invariant 0 <= keyLen <= colon
      invariant TrimEnd(line[..colon]) == TrimEnd(line[..keyLen])
    {
      assert line[..keyLen][..keyLen - 1] == line[..keyLen - 1];
      keyLen := keyLen - 1;
    }
    key := line[..keyLen];
  }

  /** The skip over leading space runs on the whole message, but stops inside a line whose value is
      not blank. */
  method SkipSpace(message: string, start: nat, end: nat) returns (valStart: nat)
    requires start <= end <= |message| && TrimStart(message[start..end]) != ""
    ensures start <= valStart < end && message[valStart..end] == TrimStart(message[start..end])
  {
    valStart := start;
    assert message[end..end] == "";
    while valStart < |message| && message[valStart] != NUL && IsSpace(message[valStart])
      invariant start <= valStart < end
      invariant TrimStart(message[start..end]) == TrimStart(message[valStart..end])
    {
      assert message[valStart..end][1..] == message[valStart + 1..end];
      valStart := valStart + 1;
    }
  }

  /** What strcpy takes of the copied value. */
  method CopyString(s: string) returns (r: string)
    ensures r == CPart(s)
  {
    assert s[0..|s|] == s;
    var n := FindChar(s, 0, |s|, NUL);
    r := s[..n];
  }

  /** The position of the first c from start on, or end. */
  method FindChar(message: string, start: nat, end: nat, c: char) returns (i: nat)
    requires start <= end <= |message|
    ensures i == start + IndexOf(message[start..end], c) <= end
  {
    i := start;
    while i < end && message[i] != c
      invariant start <= i <= end
      invariant start + IndexOf(message[start..end], c) == i + IndexOf(message[i..end], c)
    {
      assert message[i..end][1..] == message[i + 1..end];
      i := i + 1;
    }
  }

  /** The field of a line that has a colon, or None if it does not fit the buffers. */
  method Field(message: string, line: nat, colon: nat, lineEnd: nat) returns (field: Option<(string, string)>)
    requires line <= colon < lineEnd <= |message|
    requires var text := message[line..lineEnd]; HasField(text) && colon == line + IndexOf(text, ':')
    ensures var text := message[line..lineEnd];
            field == if Fits(text) then Some((Key(text), Value(text))) else None
  {
    hide TrimStart, TrimEnd, IndexOf, CPart;
    var text := message[line..lineEnd];
    assert text[colon - line + 1..] == message[colon + 1..lineEnd];
    var key := KeyOf(text, colon - line);
    if |key| > KEY_LIMIT || Blank(message[colon + 1..lineEnd]) {
      return None;
    }
    var valStart := SkipSpace(message, colon + 1, lineEnd);
    if lineEnd - valStart > VALUE_LIMIT {
      return None;
    }
    var value := CopyString(message[valStart..lineEnd]);
    return Some((key, value));
  }

  /** Nothing but space. */
  predicate Blank(s: string) {
    TrimStart(s) == ""
  }

  /** strchr(line, ':'), and the test that it is in the line: its position or the end of the line. */
  method FindColon(message: string, line: nat, lineEnd: nat) returns (colon: nat)
    requires line <= lineEnd <= |message|
    ensures var text := message[line..lineEnd];
            if HasField(text) then colon == line + IndexOf(text, ':') < lineEnd else colon == lineEnd
  {
    hide IndexOf;
    var nul := FindChar(message, line, lineEnd, NUL);
    colon := FindChar(message, line, lineEnd, ':');
    if colon >= nul {
      colon := lineEnd;
    }
  }

  /** parse_sse_message: key and value stay set over the lines, so a line without a colon sets the
      last field once more; the result is the same as without it. */
  method ParseSseMessage(message: string) returns (r: Option<Message>)
    ensures r == Parse(message)
  {
    hide LastValue, Lines, Key, Value, IndexOf, StripCr, Fits, HasField, LinesDone, Parse;
    var key, value := "", "";
    assert LastValue([], "event") == None && LastValue([], "data") == None by { LastValueNone(); }
    var event, data := None, None;
    var line := 0;
    ghost var lines: seq<string> := [];
    Start(message);
    while line < |message|
      invariant line <= |message|
      invariant LinesDone(message, line, lines)
      invariant lines != [] && line < |message| ==> message[line] != NUL
      invariant event == LastValue(lines, "event") && data == LastValue(lines, "data")
      invariant key == "event" ==> event == Some(value)
      invariant key == "data" ==> data == Some(value)
    {
      var end := FindChar(message, line, |message|, '\n');
      assert message[line..|message|] == message[line..];
      var lineEnd := end;
      if lineEnd > line && message[end - 1] == '\r' {
        lineEnd := lineEnd - 1;
      }
      ghost var text := message[line..lineEnd];
      NoField(text);
      LineStep(message, line, end, lineEnd, lines);
      LastValueOne(lines, text, "event");
      LastValueOne(lines, text, "data");
      if lineEnd > line {
        var colon := FindColon(message, line, lineEnd);
        if colon < lineEnd {
          var field := Field(message, line, colon, lineEnd);
          if field.None? {
            return None;
          }
          key, value := field.value.0, field.value.1;
        }
        if key == "event" {
          event := Some(value);
        } else if key == "data" {
          data := Some(value);
        }
      }
      lines := lines + [text];
      line := Next(message, end);
      if line >= |message| || message[line] == NUL {
        break;
      }
    }
    Finish(message, line, lines);
    r := Some(Message(event, data));
  }

  // ---------- the steps of the loop ----------

  /** The lines before this position are taken and fit. */
  ghost predicate LinesDone(message: string, line: nat, lines: seq<string>) {
    && line <= |message|
    && Lines(message) == lines + Lines(message[line..])
    && AllFit(lines)
    && Taken(Lines(message), 0) == Taken(Lines(message), |lines|)
  }

  lemma Start(message: string)
    ensures LinesDone(message, 0, [])
  {
    assert message[0..] == message;
  }

  /** The line at this position: if it fits the loop is one line further, and if not the block is not
      parsed. */
  lemma LineStep(message: string, line: nat, end: nat, lineEnd: nat, lines: seq<string>)
    requires line < |message| && end == line + IndexOf(message[line..], '\n')
    requires lineEnd == if end > line && message[end - 1] == '\r' then end - 1 else end
    requires LinesDone(message, line, lines) && (lines != [] ==> message[line] != NUL)
    ensures var text := message[line..lineEnd];
            if Fits(text) then LinesDone(message, Next(message, end), lines + [text]) else Parse(message) == None
  {
    hide Lines, IndexOf, Fits, AllFit, Taken;
    var all, text, rest := Lines(message), message[line..lineEnd], Lines(message[Next(message, end)..]);
    LineAt(message, line, end, lineEnd);
    MoveOne(all, lines, text, rest);
    assert lines != [] ==> !StartsNul(text);
    TakenStep(all, |lines|);
    FitStep(all, lines, text);
  }

  lemma TakenStep(all: seq<string>, i: nat)
    requires i < |all| && Taken(all, 0) == Taken(all, i) && (i > 0 ==> !StartsNul(all[i]))
    ensures Taken(all, 0) == Taken(all, i + 1)
  {}

  lemma FitStep(all: seq<string>, lines: seq<string>, text: string)
    requires |lines| < |all| && all[|lines|] == text && AllFit(lines) && Taken(all, 0) > |lines|
    ensures Fits(text) ==> AllFit(lines + [text])
    ensures !Fits(text) ==> !AllFit(all[..Taken(all, 0)])
  {
    hide Fits, Taken;
    var taken := all[..Taken(all, 0)];
    assert taken[|lines|] == text;
  }

  /** The loop ends at the end of the block or before a NUL. */
  lemma Finish(message: string, line: nat, lines: seq<string>)
    requires LinesDone(message, line, lines)
    requires line == |message| || (message[line] == NUL && lines != [])
    ensures Parse(message) == Some(Fields(lines))
  {
    hide Lines, LastValue, Fits, AllFit;
    var all := Lines(message);
    if line == |message| {
      assert message[line..] == "";
      NoLines();
      assert all == lines;
    } else {
      NulLine(message[line..]);
      assert all[|lines|] == Lines(message[line..])[0];
    }
    assert all[..|lines|] == lines;
  }

  lemma NulLine(s: string)
    requires s != "" && s[0] == NUL
    ensures |Lines(s)| > 0 && StartsNul(Lines(s)[0])
  {
    hide Lines, IndexOf;
    FirstLine(s);
    var i := IndexOf(s, '\n');
    assert s[..i][0] == NUL;
  }

  lemma NoField(text: string)
    ensures text == "" ==> !HasField(text)
    ensures !HasField(text) ==> Fits(text)
  {}

  /** Where the line after this end starts. */
  function Next(message: string, end: nat): (next: nat)
    requires end <= |message|
    ensures end <= next <= |message|
  {
    if end < |message| then end + 1 else end
  }

  lemma LineAt(message: string, line: nat, end: nat, lineEnd: nat)
    requires line < |message| && end == line + IndexOf(message[line..], '\n')
    requires lineEnd == if end > line && message[end - 1] == '\r' then end - 1 else end
    ensures Lines(message[line..]) == [message[line..lineEnd]] + Lines(message[Next(message, end)..])
  {
    hide Lines, IndexOf, StripCr;
    FirstLine(message[line..]);
    LineText(message, line, end, lineEnd);
  }

  lemma MoveOne(all: seq<string>, lines: seq<string>, text: string, rest: seq<string>)
    requires all == lines + ([text] + rest)
    ensures all == (lines + [text]) + rest && |lines| < |all| && all[|lines|] == text
  {}

  lemma LineText(message: string, line: nat, end: nat, lineEnd: nat)
    requires line <= end <= |message|
    requires lineEnd == if end > line && message[end - 1] == '\r' then end - 1 else end
    ensures var s := message[line..];
      && StripCr(s[..end - line]) == message[line..lineEnd]
      && message[Next(message, end)..] == if end - line < |s| then s[end - line + 1..] else ""
  {
    assert message[line..][..end - line] == message[line..end];
  }

  lemma FirstLine(s: string)
    requires s != ""
    ensures var i := IndexOf(s, '\n');
            Lines(s) == [StripCr(s[..i])] + Lines(if i < |s| then s[i + 1..] else "")
  {}

  lemma NoLines()
    ensures Lines("") == []
  {}

  lemma LastValueNone()
    ensures LastValue([], "event") == None && LastValue([], "data") == None
  {}
}
