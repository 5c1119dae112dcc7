/**
 esl-events.ts extractFrames: the incremental reader of the FreeSWITCH event
 socket. Text is single-byte, so a string's length is its byte length; how a
 content-length reads as a number is a parameter.
 */
module EslFraming {
  import opened Wrappers
  import opened JsText

  /** The values of JavaScript's Number(): not a number, an infinity, or a finite one. */
  datatype Number = NaN | PositiveInfinity | NegativeInfinity | Finite(value: real)

  type Headers = map<string, string>

  datatype Frame = Frame(headers: Headers, body: string)

  const SEPARATOR := "\n\n"
  const CRLF_SEPARATOR := "\r\n\r\n"

  /** value.startsWith(part, at) */
  predicate OccursAt(value: string, part: string, at: nat) {
    at + |part| <= |value| && value[at..at + |part|] == part
  }

  /** value.indexOf(part, from) */
  function IndexFrom(value: string, part: string, from: nat): (r: Option<nat>)
    ensures r.Some? ==> from <= r.value && OccursAt(value, part, r.value)
    ensures r.Some? ==> forall k | from <= k < r.value :: !OccursAt(value, part, k)
    ensures r.None? ==> forall k | from <= k :: !OccursAt(value, part, k)
    decreases |value| - from
  {
    if |value| < from + |part| then None
    else if OccursAt(value, part, from) then Some(from)
    else if from < |value| then IndexFrom(value, part, from + 1)
    else None
  }

  function IndexOf(value: string, part: string): Option<nat> {
    IndexFrom(value, part, 0)
  }

  // ---------------------------------------------------------------- headers

  function LowerChar(c: char): char {
    if 'A' <= c <= 'Z' then (c as int + 32) as char else c
  }

  function Lower(s: string): string {
    seq(|s|, i requires 0 <= i < |s| => LowerChar(s[i]))
  }

  /** One line without its ending, for the separator \r?\n. */
  function WithoutReturn(line: string): string {
    if line != "" && line[|line| - 1] == '\r' then line[..|line| - 1] else line
  }

  function HeaderOf(line: string): Option<(string, string)> {
    match IndexOf(line, ":")
    case None => None
    case Some(at) => Some((Lower(Trim(line[..at])), Trim(line[at + 1..])))
  }

  function PutHeader(headers: Headers, line: string): Headers {
    match HeaderOf(line)
    case None => headers
    case Some((key, value)) => headers[key := value]
  }

  /** Later lines of the same name win; the last line has no ending, so it keeps a trailing \r. */
  function ParseLines(text: string, headers: Headers): Headers
    decreases |text|
  {
    match IndexOf(text, "\n")
    case None => PutHeader(headers, text)
    case Some(at) => ParseLines(text[at + 1..], PutHeader(headers, WithoutReturn(text[..at])))
  }

  function ParseHeaders(text: string): Headers {
    ParseLines(text, map[])
  }

  // ---------------------------------------------------------------- frames

  /** What a content-length asks for: nothing, so many bytes, or more than will ever come. */
  datatype BodySize = NoBody | Sized(needed: nat, taken: nat) | Endless

  /** contentLength > 0 decides; waiting compares with the number itself, slicing truncates it. */
  function SizeOf(length: Number): (r: BodySize)
    ensures r.Sized? ==> r.taken <= r.needed
  {
    match length
    case PositiveInfinity => Endless
    case Finite(v) =>
      if v <= 0.0 then NoBody
      else Sized(if (v.Floor as real) == v then v.Floor else v.Floor + 1, v.Floor)
    case _ => NoBody
  }

  function ContentSize(headers: Headers, number: string -> Number): (r: BodySize)
    ensures r.Sized? ==> r.taken <= r.needed
  {
    if "content-length" in headers then SizeOf(number(headers["content-length"])) else NoBody
  }

  function UnwrapPlainEvent(frame: Frame): Frame {
    if "content-type" !in frame.headers || frame.headers["content-type"] != "text/event-plain" then frame
    else
      var separator := if IndexOf(frame.body, CRLF_SEPARATOR).Some? then CRLF_SEPARATOR else SEPARATOR;
      match IndexOf(frame.body, separator)
      case None => frame
      case Some(headerEnd) =>
        var eventHeaders := ParseHeaders(frame.body[..headerEnd]);
        if "event-name" !in eventHeaders || eventHeaders["event-name"] == "" then frame
        else Frame(frame.headers + eventHeaders, frame.body[headerEnd + |separator|..])
  }

  function ReplyText(headers: Headers): string {
    if "reply-text" in headers then headers["reply-text"] else ""
  }

  /** One pass of the loop: the next frame and what is left, or nothing yet. */
  function NextFrame(text: string, number: string -> Number): Option<(Frame, string)> {
    match IndexOf(text, SEPARATOR)
    case None => None
    case Some(headerEnd) =>
      var headers := ParseHeaders(text[..headerEnd]);
      var after := text[headerEnd + 2..];
      match ContentSize(headers, number)
      case NoBody => Some((UnwrapPlainEvent(Frame(headers, ReplyText(headers))), after))
      case Endless => None
      case Sized(needed, taken) =>
        if |after| < needed then None
        else Some((UnwrapPlainEvent(Frame(headers, after[..taken])), after[taken..]))
  }

  /** Each pass of the loop shortens the rest. */
  lemma FrameShortensRest(text: string, number: string -> Number)
    ensures NextFrame(text, number).Some? ==> |NextFrame(text, number).value.1| < |text|
  {
    hide UnwrapPlainEvent, ParseHeaders, ReplyText, SizeOf;
  }

  function Extract(text: string, number: string -> Number): (seq<Frame>, string)
    decreases |text|
  {
    FrameShortensRest(text, number);
    match NextFrame(text, number)
    case None => ([], text)
    case Some((frame, rest)) =>
      var (frames, left) := Extract(rest, number);
      ([frame] + frames, left)
  }

  method ExtractFrames(buffer: string, number: string -> Number) returns (frames: seq<Frame>, rest: string)
    ensures (frames, rest) == Extract(buffer, number)
    ensures |rest| <= |buffer|
  {
    frames, rest := [], buffer;
    assert [] + Extract(buffer, number).0 == Extract(buffer, number).0;
    hide NextFrame;
    while true
      invariant |rest| <= |buffer|
      invariant (frames + Extract(rest, number).0, Extract(rest, number).1) == Extract(buffer, number)
      decreases |rest|
    {
      FrameShortensRest(rest, number);
      var next := NextFrame(rest, number);
      if next.None? {
        assert frames + [] == frames;
        break;
      }
      assert frames + ([next.value.0] + Extract(next.value.1, number).0) == (frames + [next.value.0]) + Extract(next.value.1, number).0;
      frames := frames + [next.value.0];
      rest := next.value.1;
    }
  }

  // ---------------------------------------------------------------- chunk independence

  /** Waiting compares the bytes at hand with the content-length itself. */
  lemma SizedWaitsForTheNumber(v: real, length: nat)
    requires v > 0.0
    ensures SizeOf(Finite(v)).Sized?
    ensures length as real < v <==> length < SizeOf(Finite(v)).needed
    ensures SizeOf(Finite(v)).taken <= SizeOf(Finite(v)).needed
  {
  }

  lemma OccursInLonger(a: string, b: string, part: string, at: nat)
    requires at + |part| <= |a|
    ensures OccursAt(a + b, part, at) <==> OccursAt(a, part, at)
  {
    assert (a + b)[at..at + |part|] == a[at..at + |part|];
  }

  lemma IndexInLonger(a: string, b: string, part: string)
    requires IndexOf(a, part).Some?
    ensures IndexOf(a + b, part) == IndexOf(a, part)
  {
    var at := IndexOf(a, part).value;
    forall k | k <= at
      ensures OccursAt(a + b, part, k) <==> OccursAt(a, part, k)
    {
      OccursInLonger(a, b, part, k);
    }
  }

  /** A frame that can be taken is the same frame when more text has arrived. */
  lemma NextFrameInLonger(a: string, b: string, number: string -> Number)
    requires NextFrame(a, number).Some?
    ensures NextFrame(a + b, number) == Some((NextFrame(a, number).value.0, NextFrame(a, number).value.1 + b))
  {
    hide UnwrapPlainEvent, ParseHeaders;
    IndexInLonger(a, b, SEPARATOR);
    var headerEnd := IndexOf(a, SEPARATOR).value;
    assert (a + b)[..headerEnd] == a[..headerEnd];
    assert (a + b)[headerEnd + 2..] == a[headerEnd + 2..] + b;
    var size := ContentSize(ParseHeaders(a[..headerEnd]), number);
    if size.Sized? {
      assert size.taken <= |a[headerEnd + 2..]|;
      assert (a[headerEnd + 2..] + b)[..size.taken] == a[headerEnd + 2..][..size.taken];
      assert (a[headerEnd + 2..] + b)[size.taken..] == a[headerEnd + 2..][size.taken..] + b;
    }
  }

  /** Extracting from a prefix and carrying the rest over is extracting from the whole. */
  lemma {:induction false} ExtractInTwo(a: string, b: string, number: string -> Number)
    ensures Extract(a + b, number)
         == (Extract(a, number).0 + Extract(Extract(a, number).1 + b, number).0, Extract(Extract(a, number).1 + b, number).1)
    decreases |a|
  {
    hide NextFrame;
    FrameShortensRest(a, number);
    var next := NextFrame(a, number);
    if next.None? {
      assert [] + Extract(a + b, number).0 == Extract(a + b, number).0;
    } else {
      var (frame, rest) := next.value;
      NextFrameInLonger(a, b, number);
      ExtractInTwo(rest, b, number);
      var later := Extract(Extract(rest, number).1 + b, number).0;
      assert [frame] + (Extract(rest, number).0 + later) == ([frame] + Extract(rest, number).0) + later;
      assert Extract(a + b, number).0 == [frame] + Extract(rest + b, number).0;
    }
  }

  /** Nothing more can be taken from a rest. */
  lemma {:induction false} RestIsStable(a: string, number: string -> Number)
    ensures NextFrame(Extract(a, number).1, number).None?
    decreases |a|
  {
    hide NextFrame;
    FrameShortensRest(a, number);
    var next := NextFrame(a, number);
    if next.Some? {
      RestIsStable(next.value.1, number);
    }
  }

  function Concat(chunks: seq<string>): string {
    if chunks == [] then "" else chunks[0] + Concat(chunks[1..])
  }

  /** Each chunk appended to the carried rest, in arrival order. */
  function Feed(rest: string, chunks: seq<string>, number: string -> Number): (seq<Frame>, string)
    decreases |chunks|
  {
    if chunks == [] then ([], rest)
    else
      var (frames, carried) := Extract(rest + chunks[0], number);
      var (more, left) := Feed(carried, chunks[1..], number);
      (frames + more, left)
  }

  lemma {:induction false} FeedIsExtract(rest: string, chunks: seq<string>, number: string -> Number)
    requires NextFrame(rest, number).None?
    ensures Feed(rest, chunks, number) == Extract(rest + Concat(chunks), number)
    decreases |chunks|
  {
    hide NextFrame;
    if chunks == [] {
      assert rest + "" == rest;
    } else {
      var carried := Extract(rest + chunks[0], number).1;
      RestIsStable(rest + chunks[0], number);
      FeedIsExtract(carried, chunks[1..], number);
      ExtractInTwo(rest + chunks[0], Concat(chunks[1..]), number);
      assert rest + Concat(chunks) == (rest + chunks[0]) + Concat(chunks[1..]);
    }
  }

  /** The same frames and the same rest, however the stream is cut. */
  lemma ChunkingDoesNotMatter(chunks: seq<string>, others: seq<string>, number: string -> Number)
    requires Concat(chunks) == Concat(others)
    ensures Feed("", chunks, number) == Feed("", others, number) == Extract(Concat(chunks), number)
  {
    assert NextFrame("", number).None?;
    FeedIsExtract("", chunks, number);
    FeedIsExtract("", others, number);
    assert "" + Concat(chunks) == Concat(chunks);
  }

  // ---------------------------------------------------------------- what the sender wrote

  datatype Message = Message(head: string, body: string)

  function Wire(m: Message): string {
    m.head + SEPARATOR + m.body
  }

  function WireAll(messages: seq<Message>): string {
    if messages == [] then "" else Wire(messages[0]) + WireAll(messages[1..])
  }

  /** The head holds no blank line and announces exactly the body. */
  predicate WellFramed(m: Message, number: string -> Number) {
    && IndexOf(m.head + SEPARATOR, SEPARATOR) == Some(|m.head|)
    && match ContentSize(ParseHeaders(m.head), number)
       case NoBody => m.body == ""
       case Endless => false
       case Sized(needed, taken) => needed == taken == |m.body|
  }

  function FrameOf(m: Message, number: string -> Number): Frame {
    var headers := ParseHeaders(m.head);
    UnwrapPlainEvent(Frame(headers, if ContentSize(headers, number).NoBody? then ReplyText(headers) else m.body))
  }

  lemma MessageIsTaken(m: Message, tail: string, number: string -> Number)
    requires WellFramed(m, number)
    ensures NextFrame(Wire(m) + tail, number) == Some((FrameOf(m, number), tail))
  {
    hide UnwrapPlainEvent, ParseHeaders;
    var text := Wire(m) + tail;
    assert text == (m.head + SEPARATOR) + (m.body + tail);
    IndexInLonger(m.head + SEPARATOR, m.body + tail, SEPARATOR);
    assert text[..|m.head|] == m.head;
    assert text[|m.head| + 2..] == m.body + tail;
    assert (m.body + tail)[..|m.body|] == m.body && (m.body + tail)[|m.body|..] == tail;
    assert m.body == "" ==> m.body + tail == tail;
  }

  function FramesOf(messages: seq<Message>, number: string -> Number): seq<Frame> {
    if messages == [] then [] else [FrameOf(messages[0], number)] + FramesOf(messages[1..], number)
  }

  lemma {:induction false} MessagesAreTaken(messages: seq<Message>, tail: string, number: string -> Number)
    requires forall i | 0 <= i < |messages| :: WellFramed(messages[i], number)
    ensures Extract(WireAll(messages) + tail, number)
         == (FramesOf(messages, number) + Extract(tail, number).0, Extract(tail, number).1)
    decreases |messages|
  {
    hide NextFrame, WellFramed, FrameOf, Wire;
    if messages == [] {
      assert WireAll(messages) + tail == tail;
      assert [] + Extract(tail, number).0 == Extract(tail, number).0;
    } else {
      MessagesAreTaken(messages[1..], tail, number);
      MessageIsTaken(messages[0], WireAll(messages[1..]) + tail, number);
      assert WireAll(messages) + tail == Wire(messages[0]) + (WireAll(messages[1..]) + tail);
      var (first, later) := (FrameOf(messages[0], number), Extract(tail, number).0);
      assert [first] + (FramesOf(messages[1..], number) + later) == ([first] + FramesOf(messages[1..], number)) + later;
    }
  }

  /**
   Round trip: well-framed messages, cut anywhere into chunks, arrive as exactly their
   frames with nothing left over.
  */
  lemma MessagesArrive(messages: seq<Message>, chunks: seq<string>, number: string -> Number)
    requires forall i | 0 <= i < |messages| :: WellFramed(messages[i], number)
    requires Concat(chunks) == WireAll(messages)
    ensures Feed("", chunks, number) == (FramesOf(messages, number), "")
  {
    ChunkingDoesNotMatter(chunks, chunks, number);
    MessagesAreTaken(messages, "", number);
    assert WireAll(messages) + "" == WireAll(messages);
    assert NextFrame("", number).None?;
    assert FramesOf(messages, number) + [] == FramesOf(messages, number);
  }

  /** An infinite content-length stalls the stream: nothing after its head is ever extracted. */
  lemma EndlessFrameStalls(m: Message, tail: string, number: string -> Number)
    requires IndexOf(m.head + SEPARATOR, SEPARATOR) == Some(|m.head|)
    requires ContentSize(ParseHeaders(m.head), number).Endless?
    ensures Extract(Wire(m) + tail, number) == ([], Wire(m) + tail)
  {
    hide UnwrapPlainEvent, ParseHeaders;
    var text := Wire(m) + tail;
    assert text == (m.head + SEPARATOR) + (m.body + tail);
    IndexInLonger(m.head + SEPARATOR, m.body + tail, SEPARATOR);
    assert text[..|m.head|] == m.head;
  }

  /** A head can be completed by what follows it exactly when its content length is not infinite. */
  lemma HeadCompletesIff(m: Message, number: string -> Number)
    requires IndexOf(m.head + SEPARATOR, SEPARATOR) == Some(|m.head|)
    ensures (exists tail: string :: NextFrame(Wire(m) + tail, number).Some?)
            <==> !ContentSize(ParseHeaders(m.head), number).Endless?
  {
    hide UnwrapPlainEvent, ParseHeaders, NextFrame;
    var size := ContentSize(ParseHeaders(m.head), number);
    if size.Endless? {
      forall tail: string
        ensures NextFrame(Wire(m) + tail, number).None?
      {
        EndlessFrameStalls(m, tail, number);
        StalledHasNoFrame(Wire(m) + tail, number);
      }
    } else {
      var tail := Filler(if size.Sized? then size.needed else 0);
      EnoughCompletes(m, tail, number);
    }
  }

  function Filler(n: nat): (s: string)
    ensures |s| == n
  {
    seq(n, i => ' ')
  }

  lemma StalledHasNoFrame(text: string, number: string -> Number)
    requires Extract(text, number) == ([], text)
    ensures NextFrame(text, number).None?
  {
    hide NextFrame;
  }

  lemma EnoughCompletes(m: Message, tail: string, number: string -> Number)
    requires IndexOf(m.head + SEPARATOR, SEPARATOR) == Some(|m.head|)
    requires var size := ContentSize(ParseHeaders(m.head), number); !size.Endless? && (size.Sized? ==> size.needed <= |tail|)
    ensures NextFrame(Wire(m) + tail, number).Some?
  {
    hide UnwrapPlainEvent, ParseHeaders;
    var text := Wire(m) + tail;
    assert text == (m.head + SEPARATOR) + (m.body + tail);
    IndexInLonger(m.head + SEPARATOR, m.body + tail, SEPARATOR);
    assert text[..|m.head|] == m.head;
    assert text[|m.head| + 2..] == m.body + tail;
  }

  /** The listener's buffer: after any data events, frames and buffer are those of the whole stream so far. */
  class FrameReader {
    const number: string -> Number
    var buffer: string
    ghost var received: string
    ghost var delivered: seq<Frame>

    ghost predicate Valid()
      reads this
    {
      (delivered, buffer) == Extract(received, number)
    }

    constructor (number: string -> Number)
      ensures Valid() && received == "" && this.number == number
    {
      this.number := number;
      buffer, received, delivered := "", "", [];
      new;
      assert NextFrame("", number).None?;
    }

    method OnData(chunk: string) returns (frames: seq<Frame>)
      requires Valid()
      modifies this
      ensures Valid() && received == old(received) + chunk
      ensures delivered == old(delivered) + frames
    {
      ExtractInTwo(received, chunk, number);
      received := received + chunk;
      buffer := buffer + chunk;
      frames, buffer := ExtractFrames(buffer, number);
      delivered := delivered + frames;
    }
  }
}
