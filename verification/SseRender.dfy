/** Event streams as a server writes them, section 9.2.5 of the WHATWG HTML Standard without its lone
    CR line ends, and what the client of src/protocols makes of them. */
module SseRender {
  import opened Wrappers
  import opened Bytes
  import opened Framing
  import opened SseFraming
  import opened SseParse

  // ---------- lines and their ends ----------

  datatype Line = Line(text: string, crlf: bool)

  function Eol(crlf: bool): string {
    if crlf then "\r\n" else "\n"
  }

  function Joined(lines: seq<Line>): string {
    if lines == [] then "" else lines[0].text + Eol(lines[0].crlf) + Joined(lines[1..])
  }

  /** A text that stays one line. */
  predicate GoodText(text: string) {
    '\n' !in text && (text != "" ==> text[|text| - 1] != '\r')
  }

  predicate GoodLines(lines: seq<Line>) {
    forall i :: 0 <= i < |lines| ==> GoodText(lines[i].text)
  }

  function Texts(lines: seq<Line>): seq<string> {
    seq(|lines|, i requires 0 <= i < |lines| => lines[i].text)
  }

  lemma LineHead(text: string, crlf: bool, rest: string)
    requires GoodText(text)
    ensures Lines(text + Eol(crlf) + rest) == [text] + Lines(rest)
  {
    hide Lines;
    var s := text + Eol(crlf) + rest;
    var i := |text| + |Eol(crlf)| - 1;
    assert s[i] == '\n' && forall k :: 0 <= k < i ==> s[k] != '\n';
    assert IndexOf(s, '\n') == i;
    FirstLine(s);
    assert s[i + 1..] == rest;
    assert s[..i] == text + if crlf then "\r" else "";
    assert StripCr(s[..i]) == text;
  }

  /** Splitting into lines undoes joining them, whatever line ends are mixed. */
  lemma {:induction false} LinesOfJoined(lines: seq<Line>)
    requires GoodLines(lines)
    ensures Lines(Joined(lines)) == Texts(lines)
  {
    hide Lines;
    if lines == [] {
      NoLines();
    } else {
      LineHead(lines[0].text, lines[0].crlf, Joined(lines[1..]));
      LinesOfJoined(lines[1..]);
      assert Texts(lines) == [lines[0].text] + Texts(lines[1..]);
    }
  }

  lemma {:induction false} JoinedConcat(a: seq<Line>, b: seq<Line>)
    ensures Joined(a + b) == Joined(a) + Joined(b)
    decreases |a|
  {
    if a == [] {
      assert a + b == b;
    } else {
      assert (a + b)[1..] == a[1..] + b;
      JoinedConcat(a[1..], b);
      assert Joined(a + b) == (a[0].text + Eol(a[0].crlf)) + (Joined(a[1..]) + Joined(b));
    }
  }

  // ---------- events ----------

  /** One line of an event: a field the parser keeps, or anything else (comments, other fields, lines
      without a colon). */
  datatype Item = EventField(value: string) | DataField(value: string) | Other(line: string)

  function Text(item: Item): string {
    match item
    case EventField(value) => "event: " + value
    case DataField(value) => "data: " + value
    case Other(line) => line
  }

  predicate GoodValue(value: string) {
    value != "" && !IsSpace(value[0]) && NUL !in value && |value| <= VALUE_LIMIT && GoodText(value)
  }

  predicate GoodItem(item: Item) {
    match item
    case EventField(value) => GoodValue(value)
    case DataField(value) => GoodValue(value)
    case Other(line) =>
      line != "" && GoodText(line) && NUL !in line && Fits(line) && !Names(line, "event") && !Names(line, "data")
  }

  predicate GoodEvent(items: seq<Item>) {
    forall i :: 0 <= i < |items| ==> GoodItem(items[i])
  }

  function LastEvent(items: seq<Item>): Option<string> {
    if items == [] then None
    else
      var item := items[|items| - 1];
      if item.EventField? then Some(item.value) else LastEvent(items[..|items| - 1])
  }

  function LastData(items: seq<Item>): Option<string> {
    if items == [] then None
    else
      var item := items[|items| - 1];
      if item.DataField? then Some(item.value) else LastData(items[..|items| - 1])
  }

  /** The lines of an event with the line ends given, and the empty line that closes it. */
  function EventLines(items: seq<Item>, crlf: seq<bool>): (lines: seq<Line>)
    requires |crlf| == |items| + 1
    ensures |lines| == |items| + 1
  {
    seq(|items|, i requires 0 <= i < |items| => Line(Text(items[i]), crlf[i])) + [Line("", crlf[|items|])]
  }

  lemma NoNul(s: string)
    requires NUL !in s
    ensures IndexOf(s, NUL) == |s| && CPart(s) == s
  {
    assert forall k :: 0 <= k < |s| ==> s[k] in s;
  }

  /** The bytes isspace accepts: the space, and TAB to CR. */
  predicate Space(c: char) {
    c as int == 32 || 9 <= c as int <= 13
  }

  predicate Spaces(s: string) {
    forall k :: 0 <= k < |s| ==> Space(s[k])
  }

  lemma IsSpaceExactly(c: char)
    ensures IsSpace(c) <==> Space(c)
  {}

  lemma {:induction false} TrimEndSpaces(s: string, a: string)
    requires Spaces(a)
    ensures TrimEnd(s + a) == TrimEnd(s)
    decreases |a|
  {
    hide IsSpace, Space;
    if a == "" {
      assert s + a == s;
    } else {
      IsSpaceExactly(a[|a| - 1]);
      assert (s + a)[..|s + a| - 1] == s + a[..|a| - 1];
      TrimEndSpaces(s, a[..|a| - 1]);
    }
  }

  lemma {:induction false} TrimStartSpaces(a: string, s: string)
    requires Spaces(a)
    ensures TrimStart(a + s) == TrimStart(s)
    decreases |a|
  {
    hide IsSpace, Space;
    if a == "" {
      assert a + s == s;
    } else {
      IsSpaceExactly(a[0]);
      assert (a + s)[1..] == a[1..] + s;
      TrimStartSpaces(a[1..], s);
    }
  }

  lemma Untrimmed(name: string, value: string)
    requires name != "" ==> !Space(name[|name| - 1])
    requires value != "" ==> !Space(value[0])
    ensures TrimEnd(name) == name && TrimStart(value) == value
  {
    hide IsSpace, Space;
    if name != "" {
      IsSpaceExactly(name[|name| - 1]);
    }
    if value != "" {
      IsSpaceExactly(value[0]);
    }
  }

  /** A name that ends with no space, and a value that starts with none and holds no NUL. */
  predicate FieldParts(name: string, value: string) {
    && ':' !in name && NUL !in name && NUL !in value
    && (name != "" ==> !Space(name[|name| - 1]))
    && (value != "" ==> !Space(value[0]))
  }

  lemma FirstColon(name: string, a: string, after: string)
    requires ':' !in name && NUL !in name && Spaces(a)
    ensures var line := name + a + ":" + after;
            && HasField(line) && IndexOf(line, ':') == |name + a|
            && line[..|name + a|] == name + a && line[|name + a| + 1..] == after
  {
    hide IndexOf;
    var line, n := name + a + ":" + after, |name + a|;
    assert line == (name + a) + ([':'] + after) && line[n] == ':';
    forall k | 0 <= k < n ensures line[k] != ':' && line[k] != NUL {
      assert line[k] == (name + a)[k];
      if k < |name| {
        assert name[k] in name;
      } else {
        assert Space(a[k - |name|]);
      }
    }
    FoundAt(line, ':', n);
  }

  lemma FoundAt(s: string, c: char, n: nat)
    requires n < |s| && s[n] == c && c != NUL && forall k :: 0 <= k < n ==> s[k] != c && s[k] != NUL
    ensures IndexOf(s, c) == n < IndexOf(s, NUL)
  {}

  /** A field is read back as its key and value whatever spaces surround the colon; and it fits exactly
      when the key has at most 127 bytes and the value from 1 to 15359. */
  lemma SpacedField(name: string, a: string, b: string, value: string)
    requires FieldParts(name, value) && Spaces(a) && Spaces(b)
    ensures var line := name + a + ":" + (b + value);
            && HasField(line) && Key(line) == name && Copied(line) == value && Value(line) == value
            && (Fits(line) <==> |name| <= 127 && 1 <= |value| <= 15359)
  {
    hide TrimStart, TrimEnd, IndexOf, HasField, CPart, Space, Spaces;
    FirstColon(name, a, b + value);
    TrimEndSpaces(name, a);
    TrimStartSpaces(b, value);
    Untrimmed(name, value);
    NoNul(value);
  }

  /** A field as a server writes it. */
  lemma FieldText(name: string, value: string)
    requires name != "" && ':' !in name && NUL !in name && !IsSpace(name[|name| - 1]) && GoodValue(value)
    ensures var line := name + ": " + value;
            HasField(line) && Key(line) == name && Copied(line) == value && Value(line) == value
  {
    hide Key, Value, Copied, HasField, IsSpace;
    IsSpaceExactly(name[|name| - 1]);
    IsSpaceExactly(value[0]);
    SpacedField(name, "", " ", value);
    assert name + "" + ":" + (" " + value) == name + ": " + value;
  }

  lemma ItemText(item: Item)
    requires GoodItem(item)
    ensures GoodText(Text(item)) && Text(item) != "" && NUL !in Text(item) && Fits(Text(item))
    ensures if item.EventField? then Names(Text(item), "event") && Value(Text(item)) == item.value
            else !Names(Text(item), "event")
    ensures if item.DataField? then Names(Text(item), "data") && Value(Text(item)) == item.value
            else !Names(Text(item), "data")
  {
    hide Key, Value, Copied, HasField, IsSpace;
    match item
    case EventField(value) =>
      assert "event: " == "event" + ": ";
      FieldItem("event", value);
    case DataField(value) =>
      assert "data: " == "data" + ": ";
      FieldItem("data", value);
    case Other(line) =>
  }

  lemma FieldItem(name: string, value: string)
    requires name in {"event", "data"} && GoodValue(value)
    ensures var line := name + ": " + value;
            && GoodText(line) && NUL !in line && Fits(line) && |line| > 0
            && HasField(line) && Key(line) == name && Value(line) == value
    ensures "event" != "data"
  {
    hide Key, Value, Copied, HasField, IsSpace;
    assert |"event"| == 5 && |"data"| == 4;
    assert !IsSpace(name[|name| - 1]) by { NotSpaces(); }
    FieldText(name, value);
  }

  lemma NotSpaces()
    ensures !IsSpace('t') && !IsSpace('a')
  {}

  lemma {:induction false} LastValues(items: seq<Item>, texts: seq<string>)
    requires GoodEvent(items) && |texts| == |items| && forall i :: 0 <= i < |items| ==> texts[i] == Text(items[i])
    ensures LastValue(texts, "event") == LastEvent(items) && LastValue(texts, "data") == LastData(items)
    decreases |items|
  {
    hide Text, GoodItem, Names, Value;
    if items != [] {
      var n := |items| - 1;
      LastValues(items[..n], texts[..n]);
      ItemText(items[n]);
    }
  }

  lemma {:induction false} TakenAll(lines: seq<string>, i: nat)
    requires i <= |lines| && forall j :: 0 <= j < |lines| ==> NUL !in lines[j]
    ensures Taken(lines, i) == |lines|
    decreases |lines| - i
  {
    if i < |lines| {
      TakenAll(lines, i + 1);
    }
  }

  lemma {:induction false} LinesOfMore(lines: seq<Line>, rest: string)
    requires GoodLines(lines)
    ensures Lines(Joined(lines) + rest) == Texts(lines) + Lines(rest)
  {
    hide Lines, Eol, GoodText;
    if lines == [] {
      assert Joined(lines) + rest == rest && Texts(lines) == [];
    } else {
      var more := Joined(lines[1..]);
      LineHead(lines[0].text, lines[0].crlf, more + rest);
      LinesOfMore(lines[1..], rest);
      assert Joined(lines) + rest == lines[0].text + Eol(lines[0].crlf) + (more + rest);
      assert Texts(lines) == [lines[0].text] + Texts(lines[1..]);
    }
  }

  lemma {:induction false} TakenUpTo(lines: seq<string>, more: seq<string>, i: nat)
    requires i <= |lines| && lines != [] && forall j :: 0 <= j < |lines| ==> NUL !in lines[j]
    requires more == [] || StartsNul(more[0])
    ensures Taken(lines + more, i) == |lines|
    decreases |lines| - i
  {
    if i < |lines| {
      assert (lines + more)[i] == lines[i];
      TakenUpTo(lines, more, i + 1);
    }
  }

  /** A line that starts with a NUL ends the event: nothing from there on counts. */
  lemma NulEnds(lines: seq<Line>, rest: string)
    requires lines != [] && GoodLines(lines) && forall i :: 0 <= i < |lines| ==> NUL !in lines[i].text
    ensures Parse(Joined(lines) + [NUL] + rest) == Parse(Joined(lines))
  {
    hide Lines, Joined, GoodLines, Taken, AllFit, Fields, StartsNul;
    var nul := [NUL] + rest;
    LinesOfMore(lines, nul);
    LinesOfJoined(lines);
    NulLine(nul);
    TakenUpTo(Texts(lines), Lines(nul), 0);
    TakenAll(Texts(lines), 0);
    assert Joined(lines) + [NUL] + rest == Joined(lines) + nul;
    assert (Texts(lines) + Lines(nul))[..|lines|] == Texts(lines);
    assert Texts(lines)[..|lines|] == Texts(lines);
  }

  /** Parsing a rendered event gives its last event field and its last data field, whatever comments
      and other lines stand between them and whatever line ends are mixed. */
  lemma RoundTrip(items: seq<Item>, crlf: seq<bool>)
    requires GoodEvent(items) && |crlf| == |items| + 1
    ensures Parse(Joined(EventLines(items, crlf))) == Some(Message(LastEvent(items), LastData(items)))
  {
    hide GoodItem, Text, Lines, LastValue, Joined, Fits, Names, EventLines, GoodLines, Texts, Taken;
    var lines := EventLines(items, crlf);
    EventLinesGood(items, crlf);
    LinesOfJoined(lines);
    TextsOfEvent(items, crlf);
    TakenAll(Texts(lines), 0);
    FieldsOfEvent(items, Texts(lines)[..|items|]);
    assert Texts(lines)[..|Texts(lines)|] == Texts(lines);
  }

  lemma TextsOfEvent(items: seq<Item>, crlf: seq<bool>)
    requires GoodEvent(items) && |crlf| == |items| + 1
    ensures var texts := Texts(EventLines(items, crlf));
            && |texts| == |items| + 1 && texts[..|items|] + [""] == texts
            && (forall i :: 0 <= i < |items| ==> texts[..|items|][i] == Text(items[i]))
            && (forall i :: 0 <= i < |texts| ==> NUL !in texts[i] && Fits(texts[i]))
  {
    hide GoodItem, Text, Fits;
    EventLinesGood(items, crlf);
  }

  lemma FieldsOfEvent(items: seq<Item>, init: seq<string>)
    requires GoodEvent(items) && |init| == |items| && forall i :: 0 <= i < |items| ==> init[i] == Text(items[i])
    ensures Fields(init + [""]) == Message(LastEvent(items), LastData(items))
  {
    hide GoodItem, Text, LastValue, Names, LastEvent, LastData;
    LastValues(items, init);
    LastValueOne(init, "", "event");
    LastValueOne(init, "", "data");
    EmptyLine();
  }

  lemma EventLinesGood(items: seq<Item>, crlf: seq<bool>)
    requires GoodEvent(items) && |crlf| == |items| + 1
    ensures GoodLines(EventLines(items, crlf))
    ensures forall i :: 0 <= i <= |items| ==>
              NUL !in EventLines(items, crlf)[i].text && Fits(EventLines(items, crlf)[i].text)
  {
    hide GoodItem, Text, Fits, GoodText;
    EmptyLine();
    forall i | 0 <= i < |items| ensures GoodText(Text(items[i])) && NUL !in Text(items[i]) && Fits(Text(items[i])) {
      ItemText(items[i]);
    }
  }

  lemma EmptyLine()
    ensures !Names("", "event") && !Names("", "data") && Fits("") && GoodText("")
  {}

  // ---------- streams ----------

  function Repeat(b: bool, n: nat): seq<bool> {
    seq(n, i => b)
  }

  /** An event with one kind of line end throughout. */
  function Block(items: seq<Item>, crlf: bool): string {
    Joined(EventLines(items, Repeat(crlf, |items| + 1)))
  }

  function Blocks(events: seq<seq<Item>>, crlf: bool): seq<string> {
    seq(|events|, i requires 0 <= i < |events| => Block(events[i], crlf))
  }

  predicate GoodStream(events: seq<seq<Item>>) {
    forall i :: 0 <= i < |events| ==> events[i] != [] && GoodEvent(events[i])
  }

  ghost predicate StartsWith(s: string, p: string) {
    |p| <= |s| && s[..|p|] == p
  }

  /** Where the doubled line end stands in a line and what follows it. */
  lemma DelimiterAt(text: string, crlf: bool, rest: string, k: nat)
    requires GoodText(text)
    ensures var e := Eol(crlf);
            OccursAt(text + e + rest, e + e, k) <==>
              || (k == |text| && StartsWith(rest, e))
              || (k >= |text| + |e| && OccursAt(rest, e + e, k - |text| - |e|))
  {
    hide OccursAt, GoodText, StartsWith;
    var e := Eol(crlf);
    if k >= |text| + |e| {
      OccursAfter(text + e, rest, e + e, k);
    } else if k == |text| {
      DelimiterHere(text, e, rest);
    } else {
      NoDelimiterYet(text, crlf, rest, k);
    }
  }

  lemma OccursAfter(a: string, b: string, d: string, k: nat)
    requires k >= |a|
    ensures OccursAt(a + b, d, k) <==> OccursAt(b, d, k - |a|)
  {
    if k + |d| <= |a| + |b| {
      SliceAfter(a, b, k, |d|);
    }
  }

  lemma DelimiterHere(text: string, e: string, rest: string)
    ensures OccursAt(text + e + rest, e + e, |text|) <==> StartsWith(rest, e)
  {
    var s, k := text + e + rest, |text|;
    if k + 2 * |e| <= |s| {
      assert s[k..k + 2 * |e|] == e + rest[..|e|];
      SecondHalf(e, rest[..|e|], e);
    }
  }

  lemma SecondHalf(a: string, x: string, y: string)
    ensures a + x == a + y <==> x == y
  {
    assert (a + x)[|a|..] == x && (a + y)[|a|..] == y;
  }

  lemma NoDelimiterYet(text: string, crlf: bool, rest: string, k: nat)
    requires GoodText(text) && k < |text| + |Eol(crlf)| && k != |text|
    ensures !OccursAt(text + Eol(crlf) + rest, Eol(crlf) + Eol(crlf), k)
  {
    var e := Eol(crlf);
    var s := text + e + rest;
    if OccursAt(s, e + e, k) {
      OccursChar(s, e + e, k, 0);
      OccursChar(s, e + e, k, |e| - 1);
      assert false;
    }
  }

  lemma OccursChar(s: string, d: string, k: nat, m: nat)
    requires OccursAt(s, d, k) && m < |d|
    ensures s[k + m] == d[m]
  {
    assert s[k..k + |d|][m] == d[m];
  }

  /** The other kind of doubled line end is in what follows the line, or nowhere. */
  lemma OtherDelimiterAt(text: string, crlf: bool, rest: string, k: nat)
    requires GoodText(text) && (crlf ==> !StartsWith(rest, "\n"))
    ensures var e, d := Eol(crlf), Eol(!crlf) + Eol(!crlf);
            OccursAt(text + e + rest, d, k) ==> k >= |text| + |e| && OccursAt(rest, d, k - |text| - |e|)
  {
    hide GoodText, StartsWith;
    if crlf {
      LfAfterCrlf(text, rest, k);
      assert Eol(false) + Eol(false) == "\n\n";
    } else {
      CrlfAfterLf(text, rest, k);
      assert Eol(true) + Eol(true) == "\r\n\r\n";
    }
  }

  lemma LfAfterCrlf(text: string, rest: string, k: nat)
    requires GoodText(text) && !StartsWith(rest, "\n")
    ensures OccursAt(text + "\r\n" + rest, "\n\n", k) ==> k >= |text| + 2 && OccursAt(rest, "\n\n", k - |text| - 2)
  {
    var s := text + "\r\n" + rest;
    if OccursAt(s, "\n\n", k) {
      OccursChar(s, "\n\n", k, 0);
      OccursChar(s, "\n\n", k, 1);
      assert rest != "" ==> rest[..1] == [rest[0]];
      assert k >= |text| + 2;
      SliceAfter(text + "\r\n", rest, k, 2);
    }
  }

  lemma CrlfAfterLf(text: string, rest: string, k: nat)
    requires GoodText(text)
    ensures var d := "\r\n\r\n";
            OccursAt(text + "\n" + rest, d, k) ==> k >= |text| + 1 && OccursAt(rest, d, k - |text| - 1)
  {
    var s, d := text + "\n" + rest, "\r\n\r\n";
    if OccursAt(s, d, k) {
      OccursChar(s, d, k, 0);
      OccursChar(s, d, k, 1);
      assert k >= |text| + 1;
      SliceAfter(text + "\n", rest, k, 4);
    }
  }

  lemma SliceAfter(a: string, b: string, k: nat, n: nat)
    requires |a| <= k && k + n <= |a| + |b|
    ensures (a + b)[k..k + n] == b[k - |a|..k - |a| + n]
  {}

  // ---------- a stream is cut into its events ----------

  predicate Uniform(lines: seq<Line>, crlf: bool) {
    forall i :: 0 <= i < |lines| ==> lines[i].crlf == crlf && GoodText(lines[i].text)
  }

  /** How a stream goes on after a line: not with LF, and not with a line end unless the line is empty. */
  lemma JoinedStart(lines: seq<Line>, crlf: bool)
    requires Uniform(lines, crlf)
    ensures crlf ==> !StartsWith(Joined(lines), "\n")
    ensures StartsWith(Joined(lines), Eol(crlf)) <==> lines != [] && lines[0].text == ""
  {
    if lines != [] {
      var s, text, e := Joined(lines), lines[0].text, Eol(crlf);
      assert s == text + e + Joined(lines[1..]);
      if text == "" {
        assert s[..|e|] == e;
        assert s[..1][0] == e[0];
      } else {
        assert s[0] == text[0] && text[0] in text;
        assert s[1] == if |text| > 1 then text[1] else e[0];
        assert |text| > 1 ==> text[1] in text;
        assert s[..1][0] == s[0] && s[..2][0] == s[0] && s[..2][1] == s[1];
      }
    }
  }

  /** A stream with one kind of line end holds no doubled line end of the other kind. */
  lemma {:induction false} NoOther(lines: seq<Line>, crlf: bool)
    requires Uniform(lines, crlf)
    ensures !Occurs(Joined(lines), Eol(!crlf) + Eol(!crlf))
  {
    var d := Eol(!crlf) + Eol(!crlf);
    if lines != [] {
      NoOther(lines[1..], crlf);
      JoinedStart(lines[1..], crlf);
      if Occurs(Joined(lines), d) {
        var k: nat :| OccursAt(Joined(lines), d, k);
        OtherDelimiterAt(lines[0].text, crlf, Joined(lines[1..]), k);
      }
    }
  }

  ghost predicate FirstAt(s: string, d: string, k: nat) {
    OccursAt(s, d, k) && forall j: nat :: j < k ==> !OccursAt(s, d, j)
  }

  /** The first doubled line end closes the line before the first empty one. */
  lemma {:induction false} FirstGap(lines: seq<Line>, crlf: bool, n: nat)
    requires Uniform(lines, crlf) && 0 < n < |lines| && lines[n].text == ""
    requires forall i :: 0 <= i < n ==> lines[i].text != ""
    ensures |Joined(lines[..n])| >= |Eol(crlf)|
    ensures FirstAt(Joined(lines), Eol(crlf) + Eol(crlf), |Joined(lines[..n])| - |Eol(crlf)|)
  {
    hide OccursAt, StartsWith, Eol;
    var text, tail, e := lines[0].text, lines[1..], Eol(crlf);
    var s, r, d := Joined(lines), Joined(tail), e + e;
    JoinedStart(tail, crlf);
    assert lines[..n][1..] == tail[..n - 1];
    assert Joined(lines[..n]) == text + e + Joined(tail[..n - 1]);
    forall k: nat
      ensures OccursAt(s, d, k) <==>
        (k == |text| && n == 1) || (k >= |text| + |e| && OccursAt(r, d, k - |text| - |e|))
    {
      DelimiterAt(text, crlf, r, k);
    }
    if n > 1 {
      FirstGap(tail, crlf, n - 1);
    } else {
      assert tail[..0] == [];
    }
  }

  lemma NextBlock(lines: seq<Line>, crlf: bool, n: nat)
    requires Uniform(lines, crlf) && 0 < n < |lines| && lines[n].text == ""
    requires forall i :: 0 <= i < n ==> lines[i].text != ""
    ensures SseNext(Joined(lines)) == Some(|Joined(lines[..n + 1])|)
  {
    hide Joined, Find, Occurs, OccursAt;
    FirstGap(lines, crlf, n);
    NoOther(lines, crlf);
    FindNone(Joined(lines), Eol(!crlf) + Eol(!crlf));
    assert lines[..n + 1] == lines[..n] + [Line("", crlf)];
    JoinedConcat(lines[..n], [Line("", crlf)]);
    assert |Joined([Line("", crlf)])| == |Eol(crlf)| by { JoinedOne(crlf); }
    FindFirst(Joined(lines), Eol(crlf) + Eol(crlf), |Joined(lines[..n])| - |Eol(crlf)|);
    assert Eol(true) + Eol(true) == CRLF2 && Eol(false) + Eol(false) == LF2;
  }

  lemma FindFirst(s: string, d: string, k: nat)
    requires FirstAt(s, d, k)
    ensures Find(s, d, 0) == Some(k)
  {}

  lemma JoinedOne(crlf: bool)
    ensures Joined([Line("", crlf)]) == Eol(crlf)
  {
    assert [Line("", crlf)][1..] == [] && Joined([]) == "";
  }

  function Stream(events: seq<seq<Item>>, crlf: bool): string {
    if events == [] then "" else Block(events[0], crlf) + Stream(events[1..], crlf)
  }

  function StreamLines(events: seq<seq<Item>>, crlf: bool): seq<Line> {
    if events == [] then []
    else EventLines(events[0], Repeat(crlf, |events[0]| + 1)) + StreamLines(events[1..], crlf)
  }

  lemma EventUniform(items: seq<Item>, crlf: bool)
    requires GoodEvent(items)
    ensures var lines := EventLines(items, Repeat(crlf, |items| + 1));
            && Uniform(lines, crlf) && lines[|items|].text == ""
            && forall i :: 0 <= i < |items| ==> lines[i].text != ""
  {
    hide GoodItem, Text, GoodText;
    EmptyLine();
    forall i | 0 <= i < |items| ensures GoodText(Text(items[i])) && Text(items[i]) != "" {
      ItemText(items[i]);
    }
  }

  lemma {:induction false} StreamJoined(events: seq<seq<Item>>, crlf: bool)
    requires GoodStream(events)
    ensures Stream(events, crlf) == Joined(StreamLines(events, crlf)) && Uniform(StreamLines(events, crlf), crlf)
  {
    hide EventLines, Joined, Uniform, GoodEvent;
    if events == [] {
      NoLinesJoined(crlf);
    } else {
      var lines := EventLines(events[0], Repeat(crlf, |events[0]| + 1));
      StreamJoined(events[1..], crlf);
      EventUniform(events[0], crlf);
      JoinedConcat(lines, StreamLines(events[1..], crlf));
      UniformConcat(lines, StreamLines(events[1..], crlf), crlf);
    }
  }

  lemma NoLinesJoined(crlf: bool)
    ensures Joined([]) == "" && Uniform([], crlf)
  {}

  lemma UniformConcat(a: seq<Line>, b: seq<Line>, crlf: bool)
    requires Uniform(a, crlf) && Uniform(b, crlf)
    ensures Uniform(a + b, crlf)
  {}

  /** Cutting a rendered stream gives the rendered events back, with nothing left over. */
  lemma {:induction false} StreamSplit(events: seq<seq<Item>>, crlf: bool)
    requires GoodStream(events)
    ensures Bounded(SseNext) && Split(SseNext, Stream(events, crlf)) == Cut(Blocks(events, crlf), [])
    decreases |events|
  {
    hide SseNext, EventLines, Uniform, GoodEvent, Joined, Stream, StreamLines, Block;
    SseBounded();
    if events == [] {
      NothingStreamed(crlf);
    } else {
      var s, b, r := Stream(events, crlf), Block(events[0], crlf), Stream(events[1..], crlf);
      FirstBlock(events, crlf);
      StreamSplit(events[1..], crlf);
      assert Blocks(events, crlf) == [b] + Blocks(events[1..], crlf);
    }
  }

  lemma NothingStreamed(crlf: bool)
    ensures Stream([], crlf) == "" && SseNext("").None?
  {}

  /** The first block of a stream is its first event. */
  lemma FirstBlock(events: seq<seq<Item>>, crlf: bool)
    requires GoodStream(events) && events != []
    ensures var s, b := Stream(events, crlf), Block(events[0], crlf);
            && SseNext(s) == Some(|b|) && |b| <= |s|
            && s[..|b|] == b && s[|b|..] == Stream(events[1..], crlf)
  {
    hide SseNext, EventLines, Uniform, GoodEvent, Joined, StreamLines, Stream;
    var n := |events[0]|;
    var lines := EventLines(events[0], Repeat(crlf, n + 1));
    var all := StreamLines(events, crlf);
    StreamJoined(events, crlf);
    EventUniform(events[0], crlf);
    var more := StreamCons(events, crlf);
    FirstLines(lines, more, n);
    NextBlock(all, crlf, n);
    FirstPart(Block(events[0], crlf), Stream(events[1..], crlf));
  }

  lemma StreamCons(events: seq<seq<Item>>, crlf: bool) returns (more: seq<Line>)
    requires events != []
    ensures Stream(events, crlf) == Block(events[0], crlf) + Stream(events[1..], crlf)
    ensures StreamLines(events, crlf) == EventLines(events[0], Repeat(crlf, |events[0]| + 1)) + more
  {
    hide EventLines, Joined, Block;
    more := StreamLines(events[1..], crlf);
  }

  lemma FirstLines(lines: seq<Line>, more: seq<Line>, n: nat)
    requires |lines| == n + 1
    ensures (lines + more)[..n + 1] == lines && forall i :: 0 <= i <= n ==> (lines + more)[i] == lines[i]
  {}

  lemma FirstPart(a: string, b: string)
    ensures (a + b)[..|a|] == a && (a + b)[|a|..] == b
  {}
}
