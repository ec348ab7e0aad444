/**
 * The frames a stream writes, and the client that reads them: sections 9.2.5 and 9.2.6 of the WHATWG HTML
 * Living Standard (server-sent events).
 */
module EventStream {
  import opened Common
  import Strings
  import opened RealtimeTypes
  import opened RealtimeProtocol
  import opened RealtimeInvariants

  // ---------------------------------------------------------------- printing

  function ControlFrame(eventType: string, reason: string): string {
    "event: " + eventType + "\ndata: " + ReasonJson(reason) + "\n\n"
  }

  /** JSON.stringify({ reason }) for the reasons in use, which need no escapes. */
  function ReasonJson(reason: string): string { "{\"reason\":\"" + reason + "\"}" }

  function ReasonText(f: Frame): string
    requires f.Refresh? || f.Reconnect?
  {
    if f.Refresh? then "connected" else if f.reason == ForDeployment then "deployment" else "lifetime"
  }

  function ControlType(f: Frame): string
    requires f.Refresh? || f.Reconnect?
  {
    if f.Refresh? then "system.refresh" else "system.reconnect"
  }

  function Print(f: Frame): string {
    match f
    case Heartbeat => ": heartbeat\n\n"
    case HintFrame(h) => "id: " + h.messageId + "\nevent: " + h.hintType + "\ndata: " + h.json + "\n\n"
    case _ => ControlFrame(ControlType(f), ReasonText(f))
  }

  function PrintAll(frames: seq<Frame>): string {
    if frames == [] then "" else Print(frames[0]) + PrintAll(frames[1..])
  }

  /** The text of each frame. */
  lemma WireText(h: Hint)
    ensures Print(Refresh) ==
            "event: " + "system.refresh" + "\ndata: " + ("{\"reason\":\"" + "connected" + "\"}") + "\n\n"
    ensures Print(Reconnect(ForDeployment)) ==
            "event: " + "system.reconnect" + "\ndata: " + ("{\"reason\":\"" + "deployment" + "\"}") + "\n\n"
    ensures Print(Reconnect(ForLifetime)) ==
            "event: " + "system.reconnect" + "\ndata: " + ("{\"reason\":\"" + "lifetime" + "\"}") + "\n\n"
    ensures Print(Heartbeat) == ": heartbeat\n\n"
    ensures Print(HintFrame(h)) == "id: " + h.messageId + "\nevent: " + h.hintType + "\ndata: " + h.json + "\n\n"
  {
  }

  // ---------------------------------------------------------------- reading

  /** The lines of a stream, which end in LF, CR or CRLF; an unterminated last line is dropped. */
  function Lines(line: string, s: string): seq<string>
    decreases |s|
  {
    if s == "" then []
    else if s[0] == '\n' then [line] + Lines("", s[1..])
    else if s[0] == '\r' then [line] + Lines("", if |s| > 1 && s[1] == '\n' then s[2..] else s[1..])
    else Lines(line + [s[0]], s[1..])
  }

  datatype ClientEvent = ClientEvent(eventType: string, data: string, lastEventId: string)

  /** The buffers of the interpreter, and what it has dispatched. */
  datatype Client = Client(eventType: string, data: string, lastEventId: string, dispatched: seq<ClientEvent>)

  const NEW_CLIENT := Client("", "", "", [])

  function Field(c: Client, name: string, value: string): Client {
    if name == "event" then c.(eventType := value)
    else if name == "data" then c.(data := c.data + value + "\n")
    else if name == "id" then (if 0 as char in value then c else c.(lastEventId := value))
    else c
  }

  function Dispatch(c: Client): Client {
    if c.data == "" then c.(eventType := "")
    else
      var data := if c.data[|c.data| - 1] == '\n' then c.data[..|c.data| - 1] else c.data;
      var eventType := if c.eventType == "" then "message" else c.eventType;
      Client("", "", c.lastEventId, c.dispatched + [ClientEvent(eventType, data, c.lastEventId)])
  }

  /** The index of the first colon, or the length. */
  function Colon(s: string): (i: nat)
    ensures i <= |s| && ':' !in s[..i] && (i < |s| ==> s[i] == ':')
  {
    if s == "" || s[0] == ':' then 0 else 1 + Colon(s[1..])
  }

  function ReadLine(c: Client, line: string): Client {
    if line == "" then Dispatch(c)
    else if line[0] == ':' then c
    else
      var i := Colon(line);
      var value :=
        if i == |line| then "" else if i + 1 < |line| && line[i + 1] == ' ' then line[i + 2..] else line[i + 1..];
      Field(c, line[..i], value)
  }

  function ReadLines(c: Client, lines: seq<string>): Client
    decreases |lines|
  {
    if lines == [] then c else ReadLines(ReadLine(c, lines[0]), lines[1..])
  }

  /** What a client dispatches when it reads a whole stream, less a leading byte order mark. */
  function Interpret(s: string): seq<ClientEvent> {
    ReadLines(NEW_CLIENT, Lines("", if s != "" && s[0] == '\U{FEFF}' then s[1..] else s)).dispatched
  }

  datatype LineEnd = CR | CRLF

  /** The text with its line feeds replaced by another line end. */
  function Recoded(s: string, end: LineEnd): string {
    if s == "" then ""
    else if s[0] == '\n' then (if end.CR? then "\r" else "\r\n") + Recoded(s[1..], end)
    else [s[0]] + Recoded(s[1..], end)
  }

  lemma {:induction false} RecodedStart(s: string, end: LineEnd)
    requires '\r' !in s
    ensures Recoded(s, end) != "" ==> Recoded(s, end)[0] != '\n'
  {
  }

  lemma {:induction false} SameLines(line: string, s: string, end: LineEnd)
    requires '\r' !in s
    ensures Lines(line, Recoded(s, end)) == Lines(line, s)
    decreases |s|
  {
    if s != "" {
      var t, u := Recoded(s, end), Recoded(s[1..], end);
      if s[0] == '\n' {
        SameLines("", s[1..], end);
        RecodedStart(s[1..], end);
        if end.CR? {
          assert t[1..] == u;
        } else {
          assert t[2..] == u;
        }
      } else {
        SameLines(line + [s[0]], s[1..], end);
        assert t[1..] == u;
      }
    }
  }

  /** A stream says the same with each of the three line ends, and with or without a byte order mark. */
  lemma AnyLineEnd(s: string, end: LineEnd)
    requires '\r' !in s && (s != "" ==> s[0] != '\U{FEFF}')
    ensures Interpret(Recoded(s, end)) == Interpret(s) && Interpret("\U{FEFF}" + s) == Interpret(s)
  {
    SameLines("", s, end);
    assert ("\U{FEFF}" + s)[1..] == s;
  }

  // ---------------------------------------------------------------- what should be read

  function ControlEvent(f: Frame, lastEventId: string): ClientEvent
    requires f.Refresh? || f.Reconnect?
  {
    ClientEvent(ControlType(f), ReasonJson(ReasonText(f)), lastEventId)
  }

  /** The event a frame stands for, if any. */
  function EventOf(f: Frame, lastEventId: string): seq<ClientEvent> {
    match f
    case Heartbeat => []
    case HintFrame(h) => [ClientEvent(h.hintType, h.json, h.messageId)]
    case _ => [ControlEvent(f, lastEventId)]
  }

  /** The last event id sticks until the next hint. */
  function IdAfter(f: Frame, lastEventId: string): string { if f.HintFrame? then f.hint.messageId else lastEventId }

  /** The events a client ought to see. */
  function Meant(frames: seq<Frame>, lastEventId: string): seq<ClientEvent> {
    if frames == [] then [] else EventOf(frames[0], lastEventId) + Meant(frames[1..], IdAfter(frames[0], lastEventId))
  }

  predicate OneLine(s: string) { '\n' !in s && '\r' !in s }

  predicate Printable(h: Hint) { IsSafeHint(h) && IsJsonText(h.json) }

  predicate AllPrintable(frames: seq<Frame>) {
    forall f <- frames :: f.HintFrame? ==> Printable(f.hint)
  }

  // ---------------------------------------------------------------- lines of a frame

  lemma {:induction false} LineEnds(start: string, line: string, rest: string)
    requires OneLine(line)
    ensures Lines(start, line + "\n" + rest) == [start + line] + Lines("", rest)
    decreases |line|
  {
    var s := line + "\n" + rest;
    if line == "" {
      assert s[1..] == rest;
      assert start + line == start;
    } else {
      assert s[1..] == line[1..] + "\n" + rest;
      LineEnds(start + [line[0]], line[1..], rest);
      assert start + [line[0]] + line[1..] == start + line;
    }
  }

  lemma ReadCons(c: Client, line: string, lines: seq<string>)
    ensures ReadLines(c, [line] + lines) == ReadLines(ReadLine(c, line), lines)
  {
    assert ([line] + lines)[1..] == lines;
  }

  lemma FieldLine(c: Client, name: string, value: string)
    requires ':' !in name && name != ""
    ensures ReadLine(c, name + ": " + value) == Field(c, name, value)
  {
    var line := name + ": " + value;
    ColonAt(name, " " + value);
    assert line == name + ":" + (" " + value);
    assert line[..|name|] == name;
    assert line[|name| + 2..] == value;
  }

  lemma {:induction false} ColonAt(name: string, rest: string)
    requires ':' !in name
    ensures Colon(name + ":" + rest) == |name|
  {
    if name != "" {
      ColonAt(name[1..], rest);
      assert (name + ":" + rest)[1..] == name[1..] + ":" + rest;
    }
  }

  // ---------------------------------------------------------------- facts about hints

  lemma {:induction false} HintTypeChars(s: string)
    requires HintTypeRun(s) != Dead
    ensures forall c <- s :: IsLower(c) || Strings.IsDigit(c) || c == '.' || c == '-'
  {
    if s != "" {
      HintTypeChars(s[..|s| - 1]);
      assert s == s[..|s| - 1] + [s[|s| - 1]];
    }
  }

  lemma HintLines(h: Hint)
    requires Printable(h)
    ensures OneLine(h.messageId) && 0 as char !in h.messageId
    ensures OneLine(h.hintType) && h.hintType != "" && OneLine(h.json)
  {
    HintTypeChars(h.hintType);
    forall i | 0 <= i < |h.messageId|
      ensures h.messageId[i] != '\n' && h.messageId[i] != '\r' && h.messageId[i] != 0 as char
    {
      assert UuidCharAt(h.messageId, i);
    }
  }

  // ---------------------------------------------------------------- one frame

  /** Between frames the type and data buffers are empty. */
  predicate Idle(c: Client) { c.eventType == "" && c.data == "" }

  function AfterEvent(c: Client, e: ClientEvent): Client {
    Client("", "", e.lastEventId, c.dispatched + [e])
  }

  lemma EventAndData(c: Client, eventType: string, data: string, rest: string)
    requires Idle(c) && OneLine(eventType) && eventType != "" && OneLine(data)
    ensures ReadLines(c, Lines("", "event: " + eventType + "\ndata: " + data + "\n\n" + rest))
         == ReadLines(AfterEvent(c, ClientEvent(eventType, data, c.lastEventId)), Lines("", rest))
  {
    var l1, l2 := "event" + ": " + eventType, "data" + ": " + data;
    var s2 := l2 + "\n" + ("" + "\n" + rest);
    EventLines(eventType, data, rest);
    LineEnds("", l1, s2);
    LineEnds("", l2, "" + "\n" + rest);
    LineEnds("", "", rest);
    assert "" + l1 == l1 && "" + l2 == l2 && "" + "" == "";
    FieldLine(c, "event", eventType);
    var c1 := Field(c, "event", eventType);
    FieldLine(c1, "data", data);
    var c2 := Field(c1, "data", data);
    assert c2.data == data + "\n";
    assert c2.data[..|c2.data| - 1] == data;
    ReadCons(c, l1, Lines("", s2));
    ReadCons(c1, l2, Lines("", "" + "\n" + rest));
    ReadCons(c2, "", Lines("", rest));
  }

  lemma EventLines(eventType: string, data: string, rest: string)
    ensures "event: " + eventType + "\ndata: " + data + "\n\n" + rest ==
            ("event" + ": " + eventType) + "\n" + (("data" + ": " + data) + "\n" + ("" + "\n" + rest))
  {
  }

  lemma HintText(h: Hint, rest: string)
    ensures Print(HintFrame(h)) + rest ==
            ("id" + ": " + h.messageId) + "\n" + ("event: " + h.hintType + "\ndata: " + h.json + "\n\n" + rest)
  {
  }

  lemma ReadHint(c: Client, h: Hint, rest: string)
    requires Idle(c) && Printable(h)
    ensures ReadLines(c, Lines("", Print(HintFrame(h)) + rest))
         == ReadLines(AfterEvent(c, ClientEvent(h.hintType, h.json, h.messageId)), Lines("", rest))
  {
    HintLines(h);
    var l := "id" + ": " + h.messageId;
    var s1 := "event: " + h.hintType + "\ndata: " + h.json + "\n\n" + rest;
    HintText(h, rest);
    LineEnds("", l, s1);
    assert "" + l == l;
    FieldLine(c, "id", h.messageId);
    ReadCons(c, l, Lines("", s1));
    EventAndData(c.(lastEventId := h.messageId), h.hintType, h.json, rest);
  }

  lemma ControlLines(f: Frame)
    requires f.Refresh? || f.Reconnect?
    ensures OneLine(ControlType(f)) && ControlType(f) != "" && OneLine(ReasonJson(ReasonText(f)))
  {
    var prefix := "{\"reason\":\"";
    assert OneLine(prefix) && OneLine("\"}") && OneLine(ReasonText(f));
  }

  lemma ReadControl(c: Client, f: Frame, rest: string)
    requires Idle(c) && (f.Refresh? || f.Reconnect?)
    ensures ReadLines(c, Lines("", Print(f) + rest))
         == ReadLines(AfterEvent(c, ControlEvent(f, c.lastEventId)), Lines("", rest))
  {
    ControlLines(f);
    EventAndData(c, ControlType(f), ReasonJson(ReasonText(f)), rest);
    ControlText(ControlType(f), ReasonText(f), rest);
  }

  lemma ControlText(eventType: string, reason: string, rest: string)
    ensures ControlFrame(eventType, reason) + rest
         == "event: " + eventType + "\ndata: " + ReasonJson(reason) + "\n\n" + rest
  {
  }

  lemma ReadHeartbeat(c: Client, rest: string)
    requires Idle(c)
    ensures ReadLines(c, Lines("", Print(Heartbeat) + rest)) == ReadLines(c, Lines("", rest))
  {
    assert Print(Heartbeat) + rest == ": heartbeat" + "\n" + ("" + "\n" + rest);
    LineEnds("", ": heartbeat", "" + "\n" + rest);
    LineEnds("", "", rest);
    assert "" + ": heartbeat" == ": heartbeat" && "" + "" == "";
    ReadCons(c, ": heartbeat", Lines("", "" + "\n" + rest));
    ReadCons(c, "", Lines("", rest));
  }

  function AfterFrame(c: Client, f: Frame): Client {
    Client("", "", IdAfter(f, c.lastEventId), c.dispatched + EventOf(f, c.lastEventId))
  }

  lemma ReadFrame(c: Client, f: Frame, rest: string)
    requires Idle(c) && (f.HintFrame? ==> Printable(f.hint))
    ensures ReadLines(c, Lines("", Print(f) + rest)) == ReadLines(AfterFrame(c, f), Lines("", rest))
  {
    match f
    case Heartbeat =>
      ReadHeartbeat(c, rest);
      assert c.dispatched + [] == c.dispatched;
    case HintFrame(h) => ReadHint(c, h, rest);
    case Refresh => ReadControl(c, f, rest);
    case Reconnect(_) => ReadControl(c, f, rest);
  }

  lemma {:induction false} ReadAll(c: Client, frames: seq<Frame>)
    requires Idle(c) && AllPrintable(frames)
    ensures ReadLines(c, Lines("", PrintAll(frames))).dispatched == c.dispatched + Meant(frames, c.lastEventId)
    decreases |frames|
  {
    if frames != [] {
      ReadFrame(c, frames[0], PrintAll(frames[1..]));
      ReadAll(AfterFrame(c, frames[0]), frames[1..]);
      Assoc(c.dispatched, EventOf(frames[0], c.lastEventId), Meant(frames[1..], IdAfter(frames[0], c.lastEventId)));
    }
  }

  /** Reading what was printed gives back exactly the events meant, in order. */
  lemma RoundTrip(frames: seq<Frame>)
    requires AllPrintable(frames)
    ensures Interpret(PrintAll(frames)) == Meant(frames, "")
  {
    ReadAll(NEW_CLIENT, frames);
    if frames != [] { NoByteOrderMark(frames[0], PrintAll(frames[1..])); }
  }

  lemma NoByteOrderMark(f: Frame, later: string)
    ensures Print(f) + later != "" && (Print(f) + later)[0] != '\U{FEFF}'
  {
    match f
    case Heartbeat => assert Print(f)[0] == ':';
    case HintFrame(_) => assert Print(f)[0] == 'i';
    case _ => assert Print(f)[0] == 'e';
  }

  // ---------------------------------------------------------------- control and business events

  /** The business events among those received: everything that is not `system.*`. */
  function Business(events: seq<ClientEvent>): seq<ClientEvent> {
    if events == [] then []
    else (if "system." <= events[0].eventType then [] else [events[0]]) + Business(events[1..])
  }

  function HintEvents(hints: seq<Hint>): seq<ClientEvent> {
    if hints == [] then []
    else HintEvents(hints[..|hints| - 1]) +
         [ClientEvent(hints[|hints| - 1].hintType, hints[|hints| - 1].json, hints[|hints| - 1].messageId)]
  }

  lemma {:induction false} BusinessConcat(a: seq<ClientEvent>, b: seq<ClientEvent>)
    ensures Business(a + b) == Business(a) + Business(b)
  {
    if a == [] {
      assert a + b == b;
    } else {
      BusinessConcat(a[1..], b);
      BusinessCons(a[0], a[1..] + b);
      BusinessCons(a[0], a[1..]);
      assert a + b == [a[0]] + (a[1..] + b) && a == [a[0]] + a[1..];
    }
  }

  lemma BusinessCons(e: ClientEvent, events: seq<ClientEvent>)
    ensures Business([e] + events) == (if "system." <= e.eventType then [] else [e]) + Business(events)
  {
    assert ([e] + events)[1..] == events;
  }

  function LastId(frames: seq<Frame>, lastEventId: string): string {
    if frames == [] then lastEventId else LastId(frames[1..], IdAfter(frames[0], lastEventId))
  }

  lemma {:induction false} MeantAppend(frames: seq<Frame>, f: Frame, lastEventId: string)
    ensures Meant(frames + [f], lastEventId) == Meant(frames, lastEventId) + EventOf(f, LastId(frames, lastEventId))
  {
    if frames == [] {
      assert [] + [f] == [f];
    } else {
      assert (frames + [f])[1..] == frames[1..] + [f];
      MeantAppend(frames[1..], f, IdAfter(frames[0], lastEventId));
    }
  }

  lemma BusinessOne(f: Frame, lastEventId: string)
    requires f.HintFrame? ==> Printable(f.hint)
    ensures Business(EventOf(f, lastEventId)) == if f.HintFrame? then EventOf(f, lastEventId) else []
  {
    if f.Refresh? || f.Reconnect? {
      assert "system." <= ControlType(f);
    }
  }

  /** A hint is never read as a control event, nor a control event as a hint. */
  lemma {:induction false} BusinessIsHints(frames: seq<Frame>)
    requires AllPrintable(frames)
    ensures Business(Meant(frames, "")) == HintEvents(HintsOf(frames))
  {
    if frames != [] {
      var front, f := frames[..|frames| - 1], frames[|frames| - 1];
      assert frames == front + [f];
      BusinessIsHints(front);
      MeantAppend(front, f, "");
      BusinessOne(f, LastId(front, ""));
      BusinessConcat(Meant(front, ""), EventOf(f, LastId(front, "")));
      HintEventsAppend(HintsOf(front), f);
      assert HintsOf(frames) == HintsOf(front) + (if f.HintFrame? then [f.hint] else []);
    }
  }

  lemma HintEventsAppend(hints: seq<Hint>, f: Frame)
    ensures HintEvents(hints + (if f.HintFrame? then [f.hint] else []))
         == HintEvents(hints) + (if f.HintFrame? then EventOf(f, "") else [])
  {
    if f.HintFrame? {
      assert (hints + [f.hint])[..|hints|] == hints;
    } else {
      assert hints + [] == hints;
    }
  }

  /** What a client of the stream receives, control events aside, is exactly the hints written to it. */
  lemma HintsReceived(frames: seq<Frame>)
    requires AllPrintable(frames)
    ensures Business(Interpret(PrintAll(frames))) == HintEvents(HintsOf(frames))
  {
    RoundTrip(frames);
    BusinessIsHints(frames);
  }
}
