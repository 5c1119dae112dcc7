/**
 What the reader of the event socket makes of what a sender printed: header lines
 `Name: value`, a blank line, and a body of the announced length; and of the event
 that a text/event-plain body prints in the same way.
 */
module HeaderText {
  import opened Wrappers
  import opened JsText
  import opened EslFraming

  datatype Line = Line(name: string, value: string)

  function PrintLine(line: Line): string {
    line.name + ": " + line.value
  }

  /** Lines joined by newlines; a value may end in the carriage return of a \r\n ending. */
  function PrintLines(lines: seq<Line>): string {
    if lines == [] then ""
    else if |lines| == 1 then PrintLine(lines[0])
    else PrintLine(lines[0]) + "\n" + PrintLines(lines[1..])
  }

  predicate Printable(lines: seq<Line>) {
    forall i | 0 <= i < |lines| :: ':' !in lines[i].name && '\n' !in lines[i].name && '\n' !in lines[i].value
  }

  // ---------------------------------------------------------------- the names a reader compares

  /** The same text in small letters: every capital becomes the letter at its place in the alphabet. */
  ghost predicate Lowered(s: string, r: string) {
    && |r| == |s|
    && forall i | 0 <= i < |s| ::
         if 'A' <= s[i] <= 'Z' then r[i] as int - 'a' as int == s[i] as int - 'A' as int else r[i] == s[i]
  }

  lemma LowerLowers(s: string)
    ensures Lowered(s, Lower(s))
  {
  }

  /** The key a printed name is found under, and the value a printed value is read as. */
  function KeyOf(line: Line): string {
    Lower(Trim(line.name))
  }

  function ValueOf(line: Line): string {
    Trim(line.value)
  }

  /** What the lines say about a name: the value of the last line with it. */
  function Said(lines: seq<Line>, key: string): Option<string> {
    if lines == [] then None
    else
      var last := lines[|lines| - 1];
      if KeyOf(last) == key then Some(ValueOf(last)) else Said(lines[..|lines| - 1], key)
  }

  /** The headers hold what the lines say and nothing else. */
  ghost predicate HoldsSaid(headers: Headers, lines: seq<Line>) {
    forall key :: (key in headers <==> Said(lines, key).Some?) && (key in headers ==> Said(lines, key) == Some(headers[key]))
  }

  // ---------------------------------------------------------------- one line

  lemma {:induction false} FirstAt(text: string, c: char, from: nat, at: nat)
    requires from <= at < |text| && text[at] == c && forall k | from <= k < at :: text[k] != c
    ensures IndexFrom(text, [c], from) == Some(at)
    decreases at - from
  {
    assert OccursAt(text, [c], at);
    assert from < at ==> text[from..from + 1] == [text[from]];
    if from < at {
      FirstAt(text, c, from + 1, at);
    }
  }

  lemma {:induction false} NowhereAt(text: string, c: char, from: nat)
    requires from <= |text| && forall k | from <= k < |text| :: text[k] != c
    ensures IndexFrom(text, [c], from) == None
    decreases |text| - from
  {
    if from < |text| {
      assert text[from..from + 1] == [text[from]];
      NowhereAt(text, c, from + 1);
    }
  }

  /** A printed line, with or without a carriage return in front of its newline, is its key and value. */
  lemma LineIsRead(line: Line)
    requires ':' !in line.name
    ensures HeaderOf(PrintLine(line)) == Some((KeyOf(line), ValueOf(line)))
  {
    var text := PrintLine(line);
    FirstAt(text, ':', 0, |line.name|);
    assert text[..|line.name|] == line.name;
    assert text[|line.name| + 1..] == [' '] + line.value;
    StartSpaceIsCut(line.value, ' ');
    hide Trim, Lower;
  }

  lemma ReturnIsCut(line: Line)
    requires ':' !in line.name
    ensures HeaderOf(WithoutReturn(PrintLine(line))) == Some((KeyOf(line), ValueOf(line)))
  {
    hide HeaderOf, Trim, PrintLine, KeyOf;
    var text := PrintLine(line);
    LineIsRead(line);
    LastOfLine(line);
    if text[|text| - 1] == '\r' {
      var shorter := Line(line.name, line.value[..|line.value| - 1]);
      assert text[..|text| - 1] == PrintLine(shorter);
      EndSpaceIsCut(shorter.value, '\r');
      assert line.value == shorter.value + ['\r'];
      LineIsRead(shorter);
      SameKey(line, shorter);
    }
  }

  lemma SameKey(a: Line, b: Line)
    requires a.name == b.name
    ensures KeyOf(a) == KeyOf(b)
  {
  }

  /** A printed line ends in its value, or in the space before an empty one. */
  lemma LastOfLine(line: Line)
    ensures var text := PrintLine(line);
            && |text| >= 2 && (line.value == "" ==> text[|text| - 1] == ' ')
            && (line.value != "" ==>
                  && text[|text| - 1] == line.value[|line.value| - 1]
                  && text[..|text| - 1] == PrintLine(Line(line.name, line.value[..|line.value| - 1])))
  {
  }

  lemma NoLine()
    ensures HeaderOf("").None?
  {
    NowhereAt("", ':', 0);
  }

  // ---------------------------------------------------------------- all lines

  function Put(headers: Headers, lines: seq<Line>): Headers
    decreases |lines|
  {
    if lines == [] then headers else Put(headers[KeyOf(lines[0]) := ValueOf(lines[0])], lines[1..])
  }

  lemma {:induction false} LinesAreRead(lines: seq<Line>, headers: Headers)
    requires Printable(lines)
    ensures ParseLines(PrintLines(lines), headers) == Put(headers, lines)
    decreases |lines|
  {
    hide HeaderOf, PrintLine, WithoutReturn, KeyOf, ValueOf;
    if lines == [] {
      NowhereAt("", '\n', 0);
      NoLine();
    } else {
      var first := PrintLine(lines[0]);
      NoNewline(lines[0]);
      if |lines| == 1 {
        NowhereAt(first, '\n', 0);
        LineIsRead(lines[0]);
        assert lines[1..] == [];
      } else {
        var text := PrintLines(lines);
        FirstAt(text, '\n', 0, |first|);
        assert text[..|first|] == first && text[|first| + 1..] == PrintLines(lines[1..]);
        ReturnIsCut(lines[0]);
        LinesAreRead(lines[1..], headers[KeyOf(lines[0]) := ValueOf(lines[0])]);
      }
    }
  }

  lemma NoNewline(line: Line)
    requires '\n' !in line.name && '\n' !in line.value
    ensures forall k | 0 <= k < |PrintLine(line)| :: PrintLine(line)[k] != '\n'
    ensures PrintLine(line) != ""
  {
    var text := PrintLine(line);
    forall k | 0 <= k < |text|
      ensures text[k] != '\n'
    {
      if k < |line.name| {
        assert text[k] == line.name[k];
      } else if k >= |line.name| + 2 {
        assert text[k] == line.value[k - |line.name| - 2];
      }
    }
  }

  lemma {:induction false} PutEnds(headers: Headers, lines: seq<Line>)
    requires lines != []
    ensures Put(headers, lines)
         == Put(headers, lines[..|lines| - 1])[KeyOf(lines[|lines| - 1]) := ValueOf(lines[|lines| - 1])]
    decreases |lines|
  {
    hide KeyOf, ValueOf;
    if |lines| == 1 {
      assert lines[1..] == [] && lines[..0] == [];
    } else {
      var next := headers[KeyOf(lines[0]) := ValueOf(lines[0])];
      PutEnds(next, lines[1..]);
      assert lines[1..][..|lines| - 2] == lines[..|lines| - 1][1..];
    }
  }

  lemma {:induction false} PutHoldsSaid(lines: seq<Line>)
    ensures HoldsSaid(Put(map[], lines), lines)
    decreases |lines|
  {
    hide KeyOf, ValueOf;
    if lines != [] {
      PutHoldsSaid(lines[..|lines| - 1]);
      PutEnds(map[], lines);
    }
  }

  /**
   Parsing what a sender printed: every name, lower-cased and trimmed, has the trimmed
   value of its last line, and there is nothing else.
   */
  lemma PrintedHeadersAreRead(lines: seq<Line>)
    requires Printable(lines)
    ensures HoldsSaid(ParseHeaders(PrintLines(lines)), lines)
  {
    LinesAreRead(lines, map[]);
    PutHoldsSaid(lines);
    hide ParseLines, Put, PrintLines;
  }

  // ---------------------------------------------------------------- where printed lines end

  /** No line of the text is shorter than two characters, so it holds no blank line. */
  predicate LongLines(text: string) {
    && |text| >= 2 && text[0] != '\n' && text[1] != '\n' && text[|text| - 1] != '\n'
    && forall k | 0 <= k < |text| && text[k] == '\n' :: k + 2 < |text| && text[k + 1] != '\n' && text[k + 2] != '\n'
  }

  lemma {:induction false} PrintedLinesAreLong(lines: seq<Line>)
    requires lines != [] && Printable(lines)
    ensures LongLines(PrintLines(lines))
    decreases |lines|
  {
    hide PrintLine;
    var first := PrintLine(lines[0]);
    NoNewline(lines[0]);
    LastOfLine(lines[0]);
    if |lines| > 1 {
      var rest := PrintLines(lines[1..]);
      PrintedLinesAreLong(lines[1..]);
      var text := PrintLines(lines);
      assert text == first + "\n" + rest;
      forall k | 0 <= k < |text| && text[k] == '\n'
        ensures k + 2 < |text| && text[k + 1] != '\n' && text[k + 2] != '\n'
      {
        if k > |first| {
          assert text[k] == rest[k - |first| - 1];
        }
      }
    }
  }

  lemma BlankLineAt(all: string, k: nat)
    ensures OccursAt(all, SEPARATOR, k) ==> k + 2 <= |all| && all[k] == '\n' && all[k + 1] == '\n'
    ensures OccursAt(all, CRLF_SEPARATOR, k) ==> k + 4 <= |all| && all[k + 1] == '\n' && all[k + 3] == '\n'
  {
    if OccursAt(all, SEPARATOR, k) {
      assert all[k] == all[k..k + 2][0] && all[k + 1] == all[k..k + 2][1];
    }
    if OccursAt(all, CRLF_SEPARATOR, k) {
      assert all[k + 1] == all[k..k + 4][1] && all[k + 3] == all[k..k + 4][3];
    }
  }

  /** After long lines the first blank line is the one that was appended. */
  lemma FirstBlankLine(text: string, tail: string)
    requires LongLines(text)
    ensures IndexOf(text + SEPARATOR + tail, SEPARATOR) == Some(|text|)
  {
    var all := text + SEPARATOR + tail;
    assert all[|text|..|text| + 2] == SEPARATOR;
    assert OccursAt(all, SEPARATOR, |text|);
    assert forall j | 0 <= j < |text| :: all[j] == text[j];
    forall k | 0 <= k < |text|
      ensures !OccursAt(all, SEPARATOR, k)
    {
      BlankLineAt(all, k);
    }
  }

  lemma FirstBlankCrlfLine(text: string, tail: string)
    requires LongLines(text)
    ensures IndexOf(text + CRLF_SEPARATOR + tail, CRLF_SEPARATOR) == Some(|text|)
  {
    var all := text + CRLF_SEPARATOR + tail;
    assert all[|text|..|text| + 4] == CRLF_SEPARATOR;
    assert OccursAt(all, CRLF_SEPARATOR, |text|);
    assert forall j | 0 <= j < |text| :: all[j] == text[j];
    assert all[|text|] == '\r';
    forall k | 0 <= k < |text|
      ensures !OccursAt(all, CRLF_SEPARATOR, k)
    {
      BlankLineAt(all, k);
    }
  }

  // ---------------------------------------------------------------- the printed event in a body

  /** The event's own lines first, the socket's lines for what it does not say. */
  ghost predicate HoldsEither(headers: Headers, event: seq<Line>, lines: seq<Line>) {
    forall key ::
      var said := if Said(event, key).Some? then Said(event, key) else Said(lines, key);
      (key in headers <==> said.Some?) && (key in headers ==> said == Some(headers[key]))
  }

  /** The blank line that ends the event's lines: after \r\n lines if there is such a one, else after \n lines. */
  predicate EndsEvent(body: string, separator: string) {
    separator == CRLF_SEPARATOR || (separator == SEPARATOR && IndexOf(body, CRLF_SEPARATOR).None?)
  }

  /** What unwrapping does with the blank line it finds. */
  lemma UnwrapAt(frame: Frame, separator: string, end: nat, event: Headers)
    requires "content-type" in frame.headers && frame.headers["content-type"] == "text/event-plain"
    requires EndsEvent(frame.body, separator) && IndexOf(frame.body, separator) == Some(end)
    requires end + |separator| <= |frame.body| && ParseHeaders(frame.body[..end]) == event
    ensures UnwrapPlainEvent(frame)
         == if "event-name" in event && event["event-name"] != ""
            then Frame(frame.headers + event, frame.body[end + |separator|..]) else frame
  {
    hide ParseHeaders, IndexOf;
  }

  lemma MergedHold(headers: Headers, event: Headers, lines: seq<Line>, printed: seq<Line>)
    requires HoldsSaid(headers, lines) && HoldsSaid(event, printed)
    ensures HoldsEither(headers + event, printed, lines)
  {
    hide Said;
  }

  /**
   A text/event-plain body that prints an event: with a name, its headers come in front
   of the socket's and what follows the blank line is the body; without one the frame
   stays as it is.
   */
  lemma PrintedEventIsUnwrapped(headers: Headers, lines: seq<Line>, event: seq<Line>, separator: string, payload: string)
    requires HoldsSaid(headers, lines) && Said(lines, "content-type") == Some("text/event-plain")
    requires event != [] && Printable(event) && EndsEvent(PrintLines(event) + separator + payload, separator)
    ensures var frame := Frame(headers, PrintLines(event) + separator + payload);
            var name := Said(event, "event-name");
            if name.Some? && name.value != ""
            then UnwrapPlainEvent(frame).body == payload && HoldsEither(UnwrapPlainEvent(frame).headers, event, lines)
            else UnwrapPlainEvent(frame) == frame
  {
    hide LongLines, PrintLines, ParseHeaders, Said, Printable, UnwrapPlainEvent, IndexOf, HoldsEither;
    var text := PrintLines(event);
    var frame := Frame(headers, text + separator + payload);
    PrintedLinesAreLong(event);
    PrintedHeadersAreRead(event);
    if separator == CRLF_SEPARATOR {
      FirstBlankCrlfLine(text, payload);
    } else {
      FirstBlankLine(text, payload);
    }
    assert frame.body[..|text|] == text && frame.body[|text| + |separator|..] == payload;
    UnwrapAt(frame, separator, |text|, ParseHeaders(text));
    MergedHold(headers, ParseHeaders(text), lines, event);
  }

  /** Any other frame is not touched. */
  lemma OthersAreNotUnwrapped(headers: Headers, lines: seq<Line>, body: string)
    requires HoldsSaid(headers, lines)
    requires Said(lines, "content-type") != Some("text/event-plain")
             || (IndexOf(body, SEPARATOR).None? && IndexOf(body, CRLF_SEPARATOR).None?)
    ensures UnwrapPlainEvent(Frame(headers, body)) == Frame(headers, body)
  {
    hide Said;
  }

  // ---------------------------------------------------------------- whole messages

  datatype Printed = Printed(lines: seq<Line>, body: string)

  function WireOf(p: Printed): string {
    PrintLines(p.lines) + SEPARATOR + p.body
  }

  function WireOfAll(messages: seq<Printed>): string {
    if messages == [] then "" else WireOf(messages[0]) + WireOfAll(messages[1..])
  }

  /** A content-length of any spelling announces exactly the body; without one there is none. */
  predicate WellPrinted(p: Printed, number: string -> Number) {
    && p.lines != [] && Printable(p.lines)
    && match Said(p.lines, "content-length")
       case None => p.body == ""
       case Some(length) =>
         if p.body == "" then number(length).NaN? || number(length).NegativeInfinity? || number(length) == Finite(0.0)
         else number(length) == Finite(|p.body| as real)
  }

  /** The text a frame carries: its body, or the reply of a frame without one. */
  function TextOf(p: Printed): string {
    if p.body != "" then p.body
    else if Said(p.lines, "reply-text").Some? then Said(p.lines, "reply-text").value else ""
  }

  /** The frame of a printed message before an event in it is unwrapped. */
  ghost predicate Arrives(p: Printed, frame: Frame) {
    exists headers :: HoldsSaid(headers, p.lines) && frame == UnwrapPlainEvent(Frame(headers, TextOf(p)))
  }

  function AsMessage(p: Printed): Message {
    Message(PrintLines(p.lines), p.body)
  }

  lemma AnnouncedSize(length: Number, size: nat)
    ensures length == Finite(size as real) && size > 0 ==> SizeOf(length) == Sized(size, size)
    ensures length.NaN? || length.NegativeInfinity? || length == Finite(0.0) ==> SizeOf(length) == NoBody
  {
  }

  lemma PrintedIsFramed(p: Printed, number: string -> Number)
    requires WellPrinted(p, number)
    ensures WellFramed(AsMessage(p), number) && Arrives(p, FrameOf(AsMessage(p), number))
  {
    hide LongLines, PrintLines, ParseHeaders, Said, Printable, UnwrapPlainEvent, SizeOf, IndexOf;
    var m := AsMessage(p);
    var headers := ParseHeaders(m.head);
    PrintedLinesAreLong(p.lines);
    FirstBlankLine(m.head, "");
    assert m.head + SEPARATOR + "" == m.head + SEPARATOR;
    PrintedHeadersAreRead(p.lines);
    if Said(p.lines, "content-length").Some? {
      AnnouncedSize(number(Said(p.lines, "content-length").value), |p.body|);
    }
    CarriedText(p, headers, number);
  }

  lemma CarriedText(p: Printed, headers: Headers, number: string -> Number)
    requires WellPrinted(p, number) && HoldsSaid(headers, p.lines)
    ensures ContentSize(headers, number) == if p.body == "" then NoBody else Sized(|p.body|, |p.body|)
    ensures (if ContentSize(headers, number).NoBody? then ReplyText(headers) else p.body) == TextOf(p)
  {
    hide Said, SizeOf, Printable;
    if Said(p.lines, "content-length").Some? {
      AnnouncedSize(number(Said(p.lines, "content-length").value), |p.body|);
    }
  }

  function AsMessages(messages: seq<Printed>): (r: seq<Message>)
    ensures |r| == |messages| && forall i | 0 <= i < |r| :: r[i] == AsMessage(messages[i])
  {
    seq(|messages|, i requires 0 <= i < |messages| => AsMessage(messages[i]))
  }

  lemma {:induction false} SameWire(messages: seq<Printed>)
    ensures WireAll(AsMessages(messages)) == WireOfAll(messages)
    decreases |messages|
  {
    hide PrintLines;
    if messages != [] {
      assert AsMessages(messages)[1..] == AsMessages(messages[1..]);
      SameWire(messages[1..]);
    }
  }

  lemma {:induction false} FramesInOrder(messages: seq<Message>, number: string -> Number)
    ensures |FramesOf(messages, number)| == |messages|
    ensures forall i | 0 <= i < |messages| :: FramesOf(messages, number)[i] == FrameOf(messages[i], number)
    decreases |messages|
  {
    hide FrameOf;
    if messages != [] {
      FramesInOrder(messages[1..], number);
    }
  }

  /**
   Round trip from the sender's lines: printed messages, cut anywhere, arrive one frame
   each, in order, with their headers as said and their body or reply, and nothing is left.
   */
  lemma PrintedMessagesArrive(messages: seq<Printed>, chunks: seq<string>, number: string -> Number)
    requires forall i | 0 <= i < |messages| :: WellPrinted(messages[i], number)
    requires Concat(chunks) == WireOfAll(messages)
    ensures var (frames, rest) := Feed("", chunks, number);
            rest == "" && |frames| == |messages| && forall i | 0 <= i < |frames| :: Arrives(messages[i], frames[i])
  {
    var all := AsMessages(messages);
    forall i | 0 <= i < |messages|
      ensures WellFramed(all[i], number) && Arrives(messages[i], FrameOf(all[i], number))
    {
      PrintedIsFramed(messages[i], number);
    }
    SameWire(messages);
    FramesInOrder(all, number);
    hide WellPrinted, WellFramed, Arrives, FrameOf, Feed, AsMessage;
    MessagesArrive(all, chunks, number);
  }

  /** A printed message whose announced length is infinite is never taken, nor anything after it. */
  lemma InfiniteLengthStalls(p: Printed, tail: string, number: string -> Number)
    requires p.lines != [] && Printable(p.lines)
    requires Said(p.lines, "content-length").Some? && number(Said(p.lines, "content-length").value) == PositiveInfinity
    ensures Extract(WireOf(p) + tail, number) == ([], WireOf(p) + tail)
  {
    hide LongLines, PrintLines, ParseHeaders, Said, Printable, Extract, IndexOf;
    var m := AsMessage(p);
    PrintedLinesAreLong(p.lines);
    FirstBlankLine(m.head, "");
    assert m.head + SEPARATOR + "" == m.head + SEPARATOR;
    PrintedHeadersAreRead(p.lines);
    EndlessFrameStalls(m, tail, number);
  }

  /** The spelling of the name does not matter: a stream with `Content-Length: 3`, a blank line and three characters. */
  lemma SpellingDoesNotMatter(number: string -> Number)
    requires number("3") == Finite(3.0)
    ensures var (frames, rest) := Feed("", ["Content-Length: 3\n\nabc"], number);
            rest == "" && |frames| == 1 && frames[0].body == "abc" && "content-length" in frames[0].headers
            && frames[0].headers["content-length"] == "3"
  {
    var p := Printed([Line("Content-Length", "3")], "abc");
    ContentLengthIsSaid();
    assert WireOf(p) == "Content-Length: 3\n\nabc";
    assert [p][1..] == [];
    assert WireOfAll([p]) == WireOf(p) + "";
    assert ["Content-Length: 3\n\nabc"][1..] == [];
    assert Concat(["Content-Length: 3\n\nabc"]) == "Content-Length: 3\n\nabc" + "";
    hide Feed, WireOf, WireOfAll, PrintLines, Said, Concat;
    assert WellPrinted(p, number);
    PrintedMessagesArrive([p], ["Content-Length: 3\n\nabc"], number);
    var frame := Feed("", ["Content-Length: 3\n\nabc"], number).0[0];
    assert Arrives(p, frame);
    OnlyItsBody(p, frame);
  }

  lemma OnlyItsBody(p: Printed, frame: Frame)
    requires Arrives(p, frame) && p.body != "" && Said(p.lines, "content-type").None?
    ensures frame.body == p.body && HoldsSaid(frame.headers, p.lines)
  {
    hide Said, UnwrapPlainEvent;
    var headers :| HoldsSaid(headers, p.lines) && frame == UnwrapPlainEvent(Frame(headers, TextOf(p)));
    OthersAreNotUnwrapped(headers, p.lines, p.body);
  }

  lemma ContentLengthIsSaid()
    ensures Said([Line("Content-Length", "3")], "content-length") == Some("3")
    ensures Said([Line("Content-Length", "3")], "content-type") == None
    ensures PrintLines([Line("Content-Length", "3")]) == "Content-Length: 3"
  {
    var lines := [Line("Content-Length", "3")];
    assert TrimStart("Content-Length") == "Content-Length" && TrimEnd("Content-Length") == "Content-Length";
    assert TrimStart("3") == "3" && TrimEnd("3") == "3";
    hide TrimStart, TrimEnd;
    assert Lower("Content-Length") == "content-length";
    assert lines[..0] == [];
    assert Said([], "content-type") == None;
  }
}
