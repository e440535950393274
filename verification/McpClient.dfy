/**
 The MCP client object: incoming bytes are reframed into lines or server-sent
 events and handed on, whatever the chunks they arrive in.
 */
module McpClient {
  import opened Wrappers
  import opened Splitting
  import opened McpSession

  const LINE_END := "\n"
  const EVENT_END := "\n\n"

  /** What turns one piece of text into a message; none when it is not valid JSON. */
  type Decoder = string -> Option<Message>

  predicate IsSpace(c: char) {
    || c in {' ', '\t', '\n', '\r', '\U{000B}', '\U{000C}', '\U{00A0}', '\U{1680}', '\U{2028}', '\U{2029}',
             '\U{202F}', '\U{205F}', '\U{3000}', '\U{FEFF}'}
    || '\U{2000}' <= c <= '\U{200A}'
  }

  predicate Blank(line: string) {
    forall c :: c in line ==> IsSpace(c)
  }

  /** A line that is not blank and parses is handled; anything else is dropped. */
  function Line(s: Session, line: string, parse: Decoder): Session {
    if Blank(line) then s
    else
      match parse(line)
      case Some(m) => Handle(s, m)
      case None => s
  }

  function Lines(s: Session, lines: seq<string>, parse: Decoder): Session {
    if lines == [] then s else Line(Lines(s, lines[..|lines| - 1], parse), lines[|lines| - 1], parse)
  }

  /** An event whose text has a data line that parses is handled; anything else is dropped. */
  function Events(s: Session, events: seq<string>, decode: Decoder): Session {
    if events == [] then s
    else
      var before := Events(s, events[..|events| - 1], decode);
      match decode(events[|events| - 1])
      case Some(m) => Handle(before, m)
      case None => before
  }

  /** The code points that JavaScript trims away. */
  predicate TrimmedCode(code: int) {
    || 9 <= code <= 13 || code == 32 || code == 160 || code == 5760 || 8192 <= code <= 8202
    || code == 8232 || code == 8233 || code == 8239 || code == 8287 || code == 12288 || code == 65279
  }

  lemma SpacesMean(c: char)
    ensures IsSpace(c) <==> TrimmedCode(c as int)
  {
  }

  /** A line counts if it parses and holds more than white space; only then is its message handled. */
  lemma LineMeans(s: Session, line: string, parse: Decoder)
    ensures if parse(line).Some? && exists i :: 0 <= i < |line| && !TrimmedCode(line[i] as int)
            then Line(s, line, parse) == Handle(s, parse(line).value) else Line(s, line, parse) == s
  {
    forall c
      ensures IsSpace(c) <==> TrimmedCode(c as int)
    {
      SpacesMean(c);
    }
    if i :| 0 <= i < |line| && !TrimmedCode(line[i] as int) {
      assert line[i] in line && !IsSpace(line[i]);
    }
  }

  lemma {:induction false} LinesAppend(s: Session, a: seq<string>, b: seq<string>, parse: Decoder)
    ensures Lines(s, a + b, parse) == Lines(Lines(s, a, parse), b, parse)
  {
    if b == [] {
      assert a + b == a;
    } else {
      assert (a + b)[..|a + b| - 1] == a + b[..|b| - 1];
      LinesAppend(s, a, b[..|b| - 1], parse);
    }
  }

  lemma {:induction false} EventsAppend(s: Session, a: seq<string>, b: seq<string>, decode: Decoder)
    ensures Events(s, a + b, decode) == Events(Events(s, a, decode), b, decode)
  {
    if b == [] {
      assert a + b == a;
    } else {
      assert (a + b)[..|a + b| - 1] == a + b[..|b| - 1];
      EventsAppend(s, a, b[..|b| - 1], decode);
    }
  }

  class MCPClient {
    const parse: Decoder
    const decode: Decoder
    var requestId: nat
    var pending: set<nat>
    var timers: set<nat>
    var calls: seq<(nat, Outcome)>
    var notifications: seq<Message>
    var buffer: string
    var sseBuffer: string

    /** Everything received so far on each stream. */
    ghost var stdout: string
    ghost var sse: string

    function Session(): Session
      reads this
    {
      McpSession.Session(requestId, pending, timers, calls, notifications)
    }

    /** Each buffer is exactly the text after the last delimiter of its stream. */
    ghost predicate Framed()
      reads this
    {
      buffer == Last(Split(stdout, LINE_END)) && sseBuffer == Last(Split(sse, EVENT_END))
    }

    constructor (parse: Decoder, decode: Decoder)
      ensures Session() == FRESH && Framed() && stdout == sse == ""
      ensures this.parse == parse && this.decode == decode
    {
      this.parse, this.decode := parse, decode;
      requestId, pending, timers, calls, notifications := 0, {}, {}, [], [];
      buffer, sseBuffer, stdout, sse := "", "", "", "";
    }

    method SendRequest(writable: bool) returns (id: nat)
      modifies this`requestId, this`pending, this`timers, this`calls
      ensures Session() == Step(old(Session()), Send(writable)) && id == requestId
    {
      requestId := requestId + 1;
      id := requestId;
      timers := timers + {id};
      pending := pending + {id};
      if !writable {
        calls := calls + [(id, WriteFailed)];
      }
    }

    method SendSSERequest() returns (id: nat)
      modifies this`requestId
      ensures Session() == Step(old(Session()), SendSse) && id == requestId
    {
      requestId := requestId + 1;
      id := requestId;
    }

    method HandleMessage(m: Message)
      modifies this`pending, this`timers, this`calls, this`notifications
      ensures Session() == Handle(old(Session()), m)
    {
      if m.id.Some? && m.id.value != 0 && m.id.value in pending {
        timers := timers - {m.id.value};
        pending := pending - {m.id.value};
        match m.error {
          case Some(text) => calls := calls + [(m.id.value, RemoteError(text))];
          case None => calls := calls + [(m.id.value, Resolved(m.result))];
        }
      } else if m.isMethod {
        notifications := notifications + [m];
      }
    }

    method OnTimeout(id: nat)
      requires id in timers
      modifies this`pending, this`timers, this`calls
      ensures Session() == Step(old(Session()), Timer(id))
    {
      timers := timers - {id};
      pending := pending - {id};
      calls := calls + [(id, TimedOut)];
    }

    method Close()
      modifies this`pending
      ensures Session() == Step(old(Session()), Disconnect)
    {
      pending := {};
    }

    method ProcessBuffer()
      modifies this`pending, this`timers, this`calls, this`notifications, this`buffer
      ensures buffer == Last(Split(old(buffer), LINE_END))
      ensures Session() == Lines(old(Session()), Splitting.Front(Split(old(buffer), LINE_END)), parse)
    {
      var lines := Split(buffer, LINE_END);
      buffer := Last(lines);
      lines := Splitting.Front(lines);
      for i := 0 to |lines|
        invariant buffer == Last(Split(old(buffer), LINE_END))
        invariant Session() == Lines(old(Session()), lines[..i], parse)
      {
        assert lines[..i + 1][..i] == lines[..i];
        if !Blank(lines[i]) {
          match parse(lines[i]) {
            case Some(m) => HandleMessage(m);
            case None =>
          }
        }
      }
      assert lines[..|lines|] == lines;
    }

    /** A chunk of the child process's output: the lines it completes are handled, in order. */
    method OnStdout(chunk: string)
      requires Framed()
      modifies this`pending, this`timers, this`calls, this`notifications, this`buffer, this`stdout
      ensures Framed() && stdout == old(stdout) + chunk
      ensures Session() == Lines(old(Session()), Completed(old(stdout), chunk, LINE_END), parse)
    {
      CompletedExtends(stdout, chunk, LINE_END);
      stdout := stdout + chunk;
      buffer := buffer + chunk;
      ProcessBuffer();
    }

    method HandleEvents(events: seq<string>)
      modifies this`pending, this`timers, this`calls, this`notifications
      ensures Session() == Events(old(Session()), events, decode)
    {
      for i := 0 to |events|
        invariant Session() == Events(old(Session()), events[..i], decode)
      {
        assert events[..i + 1][..i] == events[..i];
        match decode(events[i]) {
          case Some(m) => HandleMessage(m);
          case None =>
        }
      }
      assert events[..|events|] == events;
    }

    /** A chunk of the server-sent event stream: the events it completes are handled, in order. */
    method OnSse(chunk: string)
      requires Framed()
      modifies this`pending, this`timers, this`calls, this`notifications, this`sseBuffer, this`sse
      ensures Framed() && sse == old(sse) + chunk
      ensures Session() == Events(old(Session()), Completed(old(sse), chunk, EVENT_END), decode)
    {
      CompletedExtends(sse, chunk, EVENT_END);
      sse := sse + chunk;
      sseBuffer := sseBuffer + chunk;
      var events := Split(sseBuffer, EVENT_END);
      sseBuffer := Last(events);
      HandleEvents(Splitting.Front(events));
    }
  }

  /** The session after a whole run of chunks on the child process's output. */
  function FeedStdout(s: Session, chunks: seq<string>, parse: Decoder): Session {
    if chunks == [] then s
    else
      var before := chunks[..|chunks| - 1];
      Lines(FeedStdout(s, before, parse), Completed(Concat(before), chunks[|chunks| - 1], LINE_END), parse)
  }

  function FeedSse(s: Session, chunks: seq<string>, decode: Decoder): Session {
    if chunks == [] then s
    else
      var before := chunks[..|chunks| - 1];
      Events(FeedSse(s, before, decode), Completed(Concat(before), chunks[|chunks| - 1], EVENT_END), decode)
  }

  /** Requests are settled alike however the output is cut into chunks. */
  lemma {:induction false} StdoutChunkingIrrelevant(s: Session, chunks: seq<string>, parse: Decoder)
    ensures FeedStdout(s, chunks, parse) == Lines(s, Splitting.Front(Split(Concat(chunks), LINE_END)), parse)
  {
    HandedIsWholeStream(chunks, LINE_END);
    if chunks != [] {
      var before := chunks[..|chunks| - 1];
      StdoutChunkingIrrelevant(s, before, parse);
      HandedIsWholeStream(before, LINE_END);
      LinesAppend(s, Handed(before, LINE_END), Completed(Concat(before), chunks[|chunks| - 1], LINE_END), parse);
    }
  }

  /** The same for the event stream, whose two-character delimiter may straddle chunks. */
  lemma {:induction false} SseChunkingIrrelevant(s: Session, chunks: seq<string>, decode: Decoder)
    ensures FeedSse(s, chunks, decode) == Events(s, Splitting.Front(Split(Concat(chunks), EVENT_END)), decode)
  {
    HandedIsWholeStream(chunks, EVENT_END);
    if chunks != [] {
      var before := chunks[..|chunks| - 1];
      SseChunkingIrrelevant(s, before, decode);
      HandedIsWholeStream(before, EVENT_END);
      EventsAppend(s, Handed(before, EVENT_END), Completed(Concat(before), chunks[|chunks| - 1], EVENT_END), decode);
    }
  }
}
