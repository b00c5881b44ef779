/**
 The HTTP gateway's two streamed bodies (rust/konfig/grpc/http_gateway.rs): a JSON array
 written item by item, and a server-sent event stream.  Text is modelled as characters;
 the transport's UTF-8 encoding is not.
 */
module HttpGateway {
  import opened Common
  import opened Json

  function Flatten(chunks: seq<string>): (t: string) {
    if chunks == [] then "" else Flatten(chunks[..|chunks| - 1]) + chunks[|chunks| - 1]
  }

  lemma FlattenAppend(chunks: seq<string>, chunk: string)
    ensures Flatten(chunks + [chunk]) == Flatten(chunks) + chunk
  {
    assert (chunks + [chunk])[..|chunks|] == chunks;
  }

  // ── The streamed JSON array ────────────────────────────────────────────────

  /** What the upstream yields: an item as it serializes, one that does not, a status, or
      the end. */
  datatype Poll = Item(text: string) | Unserializable | Error | End

  /** The items before the first thing that is not an item. */
  function Leading(polls: seq<Poll>): (texts: seq<string>)
    ensures |texts| <= |polls|
  {
    if polls == [] || !polls[0].Item? then [] else [polls[0].text] + Leading(polls[1..])
  }

  lemma {:induction false} LeadingMeaning(polls: seq<Poll>)
    ensures forall i :: 0 <= i < |Leading(polls)| ==> polls[i] == Item(Leading(polls)[i])
    ensures |Leading(polls)| < |polls| ==> !polls[|Leading(polls)|].Item?
  {
    if polls != [] && polls[0].Item? { LeadingMeaning(polls[1..]); }
  }

  function Opener(count: nat): (t: string) {
    if count == 0 then "[" else ","
  }

  function CloseArray(count: nat): (t: string) {
    if count == 0 then "[]" else "]"
  }

  /** The body for `texts`, complete or still open. */
  function Body(texts: seq<string>, closed: bool): (t: string) {
    if closed then "[" + Join(texts) + "]"
    else if texts == [] then "" else "[" + Join(texts)
  }

  /** The writer, threading the item count and the finished flag.  Whatever follows the
      first error or end is never looked at; the body is the array of the items before
      it, and it stays open while none has come. */
  method StreamJsonArray(polls: seq<Poll>) returns (chunks: seq<string>)
    ensures Flatten(chunks) == Body(Leading(polls), |Leading(polls)| < |polls|)
  {
    chunks := [];
    var count, finished := 0, false;
    while count < |polls| && !finished
      invariant count <= |polls|
      invariant Flatten(chunks) + (if finished then "" else ArrayText(polls[count..], count)) == ArrayText(polls, 0)
    {
      assert polls[count..][0] == polls[count] && polls[count..][1..] == polls[count + 1..];
      var chunk;
      match polls[count] {
        case Item(text) => chunk := Opener(count) + text;
        case _ =>
          chunk := CloseArray(count);
          finished := true;
      }
      ghost var tail := if finished then "" else ArrayText(polls[count + 1..], count + 1);
      assert ArrayText(polls[count..], count) == chunk + tail;
      Assoc(Flatten(chunks), chunk, tail);
      FlattenAppend(chunks, chunk);
      chunks := chunks + [chunk];
      count := count + 1;
    }
    ArrayTextIsBody(polls);
  }

  lemma ArrayTextIsBody(polls: seq<Poll>)
    ensures ArrayText(polls, 0) == Body(Leading(polls), |Leading(polls)| < |polls|)
  {
    var texts := Leading(polls);
    ArrayTextFrom(polls, 0);
    if texts == [] {
      assert "" + "[]" == "[" + "" + "]";
    }
  }

  /** The text still to come when `count` items are out. */
  function ArrayText(polls: seq<Poll>, count: nat): (t: string) {
    if polls == [] then ""
    else if polls[0].Item? then Opener(count) + polls[0].text + ArrayText(polls[1..], count + 1)
    else CloseArray(count)
  }

  function Started(texts: seq<string>, count: nat): (t: string) {
    if texts == [] then "" else Opener(count) + Join(texts)
  }

  lemma {:induction false} ArrayTextFrom(polls: seq<Poll>, count: nat)
    ensures var texts := Leading(polls);
            ArrayText(polls, count) ==
            Started(texts, count) + if |texts| < |polls| then CloseArray(count + |texts|) else ""
  {
    if polls != [] && polls[0].Item? {
      var rest := Leading(polls[1..]);
      ArrayTextFrom(polls[1..], count + 1);
      StartedOneMore(polls[0].text, rest, count);
      Assoc(Opener(count) + polls[0].text, Started(rest, count + 1),
            if |rest| < |polls| - 1 then CloseArray(count + 1 + |rest|) else "");
    }
  }

  lemma StartedOneMore(text: string, rest: seq<string>, count: nat)
    ensures Started([text] + rest, count) == Opener(count) + text + Started(rest, count + 1)
  {
    if rest == [] {
      assert [text] + rest == [text];
    } else {
      assert ([text] + rest)[1..] == rest;
      Assoc(Opener(count), text, "," + Join(rest));
      Assoc(text, ",", Join(rest));
    }
  }

  /** The complete body is the serialized array of all items. */
  lemma BodyIsArrayText(items: seq<Json>)
    ensures Body(Encodings(items), true) == Encode(Array(items))
  {
    ItemsJoined(items);
  }

  /** Cutting a complete body at its outermost commas gives the items back, one encoding
      each and in order; and a JSON reader reads the body as the array of the items. */
  lemma ArrayRoundTrip(items: seq<Json>)
    ensures Elements(Body(Encodings(items), true)) == Encodings(items)
    ensures ReadValue(Body(Encodings(items), true)) == Some((Array(items), ""))
  {
    var t := Body(Encodings(items), true);
    assert t[1..|t| - 1] == Join(Encodings(items));
    if items != [] {
      EncodingsAreNotEmpty(items[0]);
      EncodingsAreNeutral(items);
      SplitJoin(Encodings(items));
    }
    BodyIsArrayText(items);
    ReadsBack(Array(items), "");
    assert t + "" == t;
  }

  // ── Server-sent events: the printer ────────────────────────────────────────

  function Frame(event: string, id: string, data: string): (t: string) {
    "event: " + event + "\n" + (if id == "" then "" else "id: " + id + "\n") + "data: " + data + "\n\n"
  }

  method SseFrame(event: string, id: string, data: string) returns (buf: string)
    ensures buf == Frame(event, id, data)
  {
    buf := "event: ";
    buf := buf + event;
    buf := buf + ['\n'];
    if id != "" {
      buf := buf + "id: ";
      buf := buf + id;
      buf := buf + ['\n'];
    }
    buf := buf + "data: ";
    buf := buf + data;
    buf := buf + "\n\n";
  }

  /** An unknown type reads as a modification; no other type is ever taken for one of
      the other three. */
  function EventTypeName(eventType: int): (name: string)
    ensures name == "ADDED" <==> eventType == 0
    ensures name == "DELETED" <==> eventType == 2
    ensures name == "SNAPSHOT" <==> eventType == 3
    ensures name in ["ADDED", "MODIFIED", "DELETED", "SNAPSHOT"]
  {
    match eventType
    case 0 => "ADDED"
    case 1 => "MODIFIED"
    case 2 => "DELETED"
    case 3 => "SNAPSHOT"
    case _ => "MODIFIED"
  }

  /** A config or secret event; the resource may be missing. */
  datatype Event = Event(eventType: int, resource: Option<Resource>)

  /** `body` is absent when the resource does not serialize. */
  datatype Resource = Resource(resourceVersion: string, body: Option<Json>)

  function Payload(e: Event): (data: string) {
    match e.resource
    case Some(Resource(_, Some(body))) => Encode(body)
    case _ => "{}"
  }

  function EventId(e: Event): (id: string) {
    match e.resource case Some(o) => o.resourceVersion case None => ""
  }

  function FrameEvent(e: Event): (t: string) {
    Frame(EventTypeName(e.eventType), EventId(e), Payload(e))
  }

  /** A stream error: lag asks the client to reload, anything else is an error event. */
  datatype Status = Status(exhausted: bool, body: Json)

  function TerminalFrame(s: Status): (t: string) {
    Frame(if s.exhausted then "RELOAD" else "error", "", Encode(s.body))
  }

  const KEEP_ALIVE: string := ": keep-alive\n\n"

  /** What one turn of the select sees. */
  datatype Turn = Upstream(event: Event) | Fault(status: Status) | Closed | Tick

  /** The SSE stream, threading the finished flag: a fault is framed and ends the stream,
      a clean close ends it silently. */
  method SseEventStream(turns: seq<Turn>) returns (chunks: seq<string>)
    ensures Flatten(chunks) == Wire(turns)
  {
    chunks := [];
    var n, finished := 0, false;
    while n < |turns| && !finished
      invariant n <= |turns|
      invariant Flatten(chunks) + (if finished then "" else Wire(turns[n..])) == Wire(turns)
    {
      assert turns[n..][0] == turns[n] && turns[n..][1..] == turns[n + 1..];
      var chunk := EmitTurn(turns[n]);
      WireOneMore(turns[n..]);
      finished := Ends(turns[n]);
      n := n + 1;
      ghost var tail := if finished then "" else Wire(turns[n..]);
      Assoc(Flatten(chunks), chunk, tail);
      FlattenAppend(chunks, chunk);
      if chunk != "" {
        chunks := chunks + [chunk];
      } else {
        assert Flatten(chunks) + chunk == Flatten(chunks);
      }
    }
  }

  method EmitTurn(turn: Turn) returns (chunk: string)
    ensures chunk == Chunk(turn)
  {
    match turn {
      case Upstream(event) => chunk := SseFrame(EventTypeName(event.eventType), EventId(event), Payload(event));
      case Fault(status) => chunk := SseFrame(if status.exhausted then "RELOAD" else "error", "", Encode(status.body));
      case Closed => chunk := "";
      case Tick => chunk := KEEP_ALIVE;
    }
  }

  function Chunk(turn: Turn): (t: string) {
    match turn
    case Upstream(event) => FrameEvent(event)
    case Fault(status) => TerminalFrame(status)
    case Closed => ""
    case Tick => KEEP_ALIVE
  }

  predicate Ends(turn: Turn) {
    turn.Fault? || turn.Closed?
  }

  lemma WireOneMore(turns: seq<Turn>)
    requires turns != []
    ensures Wire(turns) == Chunk(turns[0]) + if Ends(turns[0]) then "" else Wire(turns[1..])
  {
    assert Chunk(turns[0]) + "" == Chunk(turns[0]);
  }

  function Wire(turns: seq<Turn>): (t: string) {
    if turns == [] then ""
    else
      match turns[0]
      case Upstream(event) => FrameEvent(event) + Wire(turns[1..])
      case Fault(status) => TerminalFrame(status)
      case Closed => ""
      case Tick => KEEP_ALIVE + Wire(turns[1..])
  }

  // ── Server-sent events: the client of section 9.2.6 of the HTML standard ───

  datatype Message = Message(event: string, data: string, lastEventId: string)

  /** The client's buffers, the last event id it would resume from, and the messages
      dispatched so far. */
  datatype Client = Client(data: string, event: string, idBuffer: string, lastEventId: string, messages: seq<Message>)

  const NEW_CLIENT := Client("", "", "", "", [])

  function LineEnd(s: string): (n: nat)
    ensures n <= |s|
    ensures forall i :: 0 <= i < n ==> s[i] != '\n' && s[i] != '\r'
    ensures n < |s| ==> s[n] == '\n' || s[n] == '\r'
  {
    if s == "" || s[0] == '\n' || s[0] == '\r' then 0 else 1 + LineEnd(s[1..])
  }

  /** Lines end in LF, CR or CRLF; an unfinished last line is discarded. */
  function Parse(s: string, c: Client): (r: Client)
    decreases |s|
  {
    var n := LineEnd(s);
    if n == |s| then c
    else Parse(s[NextLine(s, n)..], Line(s[..n], c))
  }

  function NextLine(s: string, n: nat): (next: nat)
    requires n < |s|
    ensures n < next <= |s|
  {
    if s[n] == '\r' && n + 1 < |s| && s[n + 1] == '\n' then n + 2 else n + 1
  }

  /** A leading byte order mark is not part of the stream. */
  function ParseStream(s: string): (r: Client) {
    Parse(if s != "" && s[0] == '\U{FEFF}' then s[1..] else s, NEW_CLIENT)
  }

  function Colon(line: string): (n: nat)
    ensures n <= |line|
  {
    if line == "" || line[0] == ':' then 0 else 1 + Colon(line[1..])
  }

  function Line(line: string, c: Client): (r: Client) {
    if line == "" then Dispatch(c)
    else
      var n := Colon(line);
      if n == 0 then c
      else if n == |line| then SetField(line, "", c)
      else
        var value := line[n + 1..];
        SetField(line[..n], if value != "" && value[0] == ' ' then value[1..] else value, c)
  }

  predicate NulFree(s: string) {
    forall i :: 0 <= i < |s| ==> s[i] as int != 0
  }

  function SetField(name: string, value: string, c: Client): (r: Client) {
    if name == "event" then c.(event := value)
    else if name == "data" then c.(data := c.data + value + "\n")
    else if name == "id" then if NulFree(value) then c.(idBuffer := value) else c
    else c
  }

  function Dispatch(c: Client): (r: Client) {
    if c.data == "" then Client("", "", c.idBuffer, c.idBuffer, c.messages)
    else
      var data := if c.data[|c.data| - 1] == '\n' then c.data[..|c.data| - 1] else c.data;
      Client("", "", c.idBuffer, c.idBuffer,
             c.messages + [Message(if c.event == "" then "message" else c.event, data, c.idBuffer)])
  }

  // ── Round trip ─────────────────────────────────────────────────────────────

  lemma {:induction false} LineEndAt(line: string, rest: string)
    requires OneLine(line) && rest != "" && rest[0] == '\n'
    ensures LineEnd(line + rest) == |line|
  {
    if line == "" {
      assert line + rest == rest;
    } else {
      assert (line + rest)[0] == line[0] && (line + rest)[1..] == line[1..] + rest;
      LineEndAt(line[1..], rest);
    }
  }

  lemma ParseLine(line: string, rest: string, c: Client)
    requires OneLine(line)
    ensures Parse(line + "\n" + rest, c) == Parse(rest, Line(line, c))
  {
    var s := line + ("\n" + rest);
    assert line + "\n" + rest == s;
    LineEndAt(line, "\n" + rest);
    assert s[|line|] == '\n' && s[..|line|] == line && s[|line| + 1..] == rest;
  }

  lemma {:induction false} ColonAt(name: string, rest: string)
    requires rest != "" && rest[0] == ':' && forall i :: 0 <= i < |name| ==> name[i] != ':'
    ensures Colon(name + rest) == |name|
  {
    if name == "" {
      assert name + rest == rest;
    } else {
      assert (name + rest)[0] == name[0] && (name + rest)[1..] == name[1..] + rest;
      ColonAt(name[1..], rest);
    }
  }

  /** A printed field line sets that field to exactly the printed value. */
  lemma FieldLine(name: string, value: string, c: Client)
    requires name != "" && forall i :: 0 <= i < |name| ==> name[i] != ':'
    ensures Line(name + ": " + value, c) == SetField(name, value, c)
  {
    var line := name + (": " + value);
    assert name + ": " + value == line;
    ColonAt(name, ": " + value);
    assert line[..|name|] == name && line[|name| + 1..] == " " + value && (" " + value)[1..] == value;
  }

  /** The id a client holds after a frame: an empty id, or one with a NUL, keeps the old. */
  function NextId(last: string, id: string): (r: string) {
    if id == "" || !NulFree(id) then last else id
  }

  predicate Idle(c: Client) {
    c.data == "" && c.event == "" && c.idBuffer == c.lastEventId
  }

  function Received(c: Client, event: string, id: string, data: string): (r: Client) {
    var last := NextId(c.lastEventId, id);
    Client("", "", last, last, c.messages + [Message(event, data, last)])
  }

  lemma FieldStep(name: string, value: string, rest: string, c: Client)
    requires name != "" && OneLine(name) && OneLine(value) && forall i :: 0 <= i < |name| ==> name[i] != ':'
    ensures Parse(name + ": " + value + "\n" + rest, c) == Parse(rest, SetField(name, value, c))
  {
    FieldLine(name, value, c);
    ParseLine(name + ": " + value, rest, c);
  }

  lemma SetEvent(value: string, c: Client)
    ensures SetField("event", value, c) == c.(event := value)
  {
  }

  lemma SetData(value: string, c: Client)
    requires c.data == ""
    ensures SetField("data", value, c) == c.(data := value + "\n")
  {
    assert c.data + value + "\n" == value + "\n";
  }

  lemma SetId(id: string, c: Client)
    requires id != ""
    ensures SetField("id", id, c) == c.(idBuffer := NextId(c.idBuffer, id))
  {
  }

  lemma DispatchData(data: string, c: Client)
    ensures Dispatch(c.(data := data + "\n")) ==
            Client("", "", c.idBuffer, c.idBuffer,
                   c.messages + [Message(if c.event == "" then "message" else c.event, data, c.idBuffer)])
  {
    assert (data + "\n")[..|data|] == data;
  }

  /** The frame as its lines. */
  function DataText(data: string, rest: string): (t: string) {
    "data: " + data + "\n" + ("\n" + rest)
  }

  function IdText(id: string, rest: string): (t: string) {
    if id == "" then rest else "id: " + id + "\n" + rest
  }

  lemma FrameLines(event: string, id: string, data: string, rest: string)
    ensures Frame(event, id, data) + rest == "event: " + event + "\n" + IdText(id, DataText(data, rest))
  {
    assert "data: " + data + "\n\n" + rest == DataText(data, rest);
  }

  lemma BlankLine(rest: string, c: Client)
    ensures Parse("\n" + rest, c) == Parse(rest, Dispatch(c))
  {
    ParseLine("", rest, c);
    assert "" + "\n" + rest == "\n" + rest;
  }

  lemma DataStep(data: string, rest: string, c: Client)
    requires OneLine(data) && c.data == ""
    ensures Parse(DataText(data, rest), c) == Parse(rest, Dispatch(c.(data := data + "\n")))
  {
    assert "data" + ": " == "data: ";
    FieldStep("data", data, "\n" + rest, c);
    SetData(data, c);
    BlankLine(rest, c.(data := data + "\n"));
  }

  lemma IdStep(id: string, rest: string, c: Client)
    requires OneLine(id)
    ensures Parse(IdText(id, rest), c) == Parse(rest, c.(idBuffer := NextId(c.idBuffer, id)))
  {
    if id != "" {
      assert "id" + ": " == "id: ";
      FieldStep("id", id, rest, c);
      SetId(id, c);
    }
  }

  lemma EventStep(event: string, rest: string, c: Client)
    requires OneLine(event)
    ensures Parse("event: " + event + "\n" + rest, c) == Parse(rest, c.(event := event))
  {
    assert "event" + ": " == "event: ";
    FieldStep("event", event, rest, c);
    SetEvent(event, c);
  }

  /** One frame is read as exactly one message, whatever follows it. */
  lemma FrameRoundTrip(event: string, id: string, data: string, rest: string, c: Client)
    requires OneLine(event) && event != "" && OneLine(id) && OneLine(data) && Idle(c)
    ensures Parse(Frame(event, id, data) + rest, c) == Parse(rest, Received(c, event, id, data))
  {
    FrameLines(event, id, data, rest);
    var c1 := c.(event := event);
    var c2 := c1.(idBuffer := NextId(c.lastEventId, id));
    EventStep(event, IdText(id, DataText(data, rest)), c);
    IdStep(id, DataText(data, rest), c1);
    DataStep(data, rest, c2);
    DispatchData(data, c2);
  }

  lemma CommentIsIgnored(text: string, c: Client)
    ensures Line([':'] + text, c) == c
  {
    assert Colon([':'] + text) == 0;
  }

  lemma KeepAliveIsIgnored(rest: string, c: Client)
    requires Idle(c)
    ensures Parse(KEEP_ALIVE + rest, c) == Parse(rest, c)
  {
    var line := [':'] + " keep-alive";
    assert KEEP_ALIVE + rest == line + "\n" + ("\n" + rest);
    ParseLine(line, "\n" + rest, c);
    CommentIsIgnored(" keep-alive", c);
    BlankLine(rest, c);
  }

  lemma PayloadIsOneLine(e: Event)
    ensures OneLine(Payload(e))
  {
    match e.resource {
      case Some(Resource(_, Some(body))) => EncodeIsOneLine(body);
      case _ =>
    }
  }

  /** No resource version sent carries a line break; the bodies never do. */
  ghost predicate CleanIds(turns: seq<Turn>) {
    forall i :: 0 <= i < |Events(turns)| ==> OneLine(EventId(Events(turns)[i]))
  }

  lemma CleanRest(turns: seq<Turn>)
    requires turns != [] && (turns[0].Upstream? || turns[0].Tick?) && CleanIds(turns)
    ensures CleanIds(turns[1..])
    ensures turns[0].Upstream? ==> OneLine(EventId(turns[0].event))
  {
    var all, rest := Events(turns), Events(turns[1..]);
    if turns[0].Upstream? {
      assert all == [turns[0].event] + rest && all[0] == turns[0].event;
      forall i | 0 <= i < |rest| ensures OneLine(EventId(rest[i])) {
        assert rest[i] == all[i + 1];
      }
    } else {
      assert all == rest;
    }
  }

  /** What the client must have received: the upstream events in order, then at most one
      terminal event, which comes last and leaves the last event id alone. */
  function Expected(turns: seq<Turn>, c: Client): (r: Client) {
    if turns == [] then c
    else
      match turns[0]
      case Upstream(e) => Expected(turns[1..], Received(c, EventTypeName(e.eventType), EventId(e), Payload(e)))
      case Fault(s) => Received(c, if s.exhausted then "RELOAD" else "error", "", Encode(s.body))
      case Closed => c
      case Tick => Expected(turns[1..], c)
  }

  lemma {:induction false} WireRoundTrip(turns: seq<Turn>, c: Client)
    requires CleanIds(turns) && Idle(c)
    ensures Parse(Wire(turns), c) == Expected(turns, c)
    decreases |turns|
  {
    if turns != [] {
      var rest := turns[1..];
      match turns[0] {
        case Upstream(e) =>
          CleanRest(turns);
          PayloadIsOneLine(e);
          FrameRoundTrip(EventTypeName(e.eventType), EventId(e), Payload(e), Wire(rest), c);
          WireRoundTrip(rest, Received(c, EventTypeName(e.eventType), EventId(e), Payload(e)));
        case Fault(s) =>
          EncodeIsOneLine(s.body);
          var name := if s.exhausted then "RELOAD" else "error";
          FrameRoundTrip(name, "", Encode(s.body), "", c);
          assert TerminalFrame(s) + "" == TerminalFrame(s);
        case Closed =>
        case Tick =>
          CleanRest(turns);
          KeepAliveIsIgnored(Wire(rest), c);
          WireRoundTrip(rest, c);
      }
    }
  }

  /** Reading the whole response as an event stream gives exactly the framed events. */
  lemma SseRoundTrip(turns: seq<Turn>)
    requires CleanIds(turns)
    ensures ParseStream(Wire(turns)) == Expected(turns, NEW_CLIENT)
  {
    WireStartsPlainly(turns);
    WireRoundTrip(turns, NEW_CLIENT);
  }

  lemma WireStartsPlainly(turns: seq<Turn>)
    ensures Wire(turns) != "" ==> Wire(turns)[0] == 'e' || Wire(turns)[0] == ':'
  {
    if turns != [] && turns[0].Upstream? { assert FrameEvent(turns[0].event)[0] == 'e'; }
    if turns != [] && turns[0].Fault? { assert TerminalFrame(turns[0].status)[0] == 'e'; }
  }

  /** The events of a stream before it ended, and how it ended. */
  function Events(turns: seq<Turn>): (es: seq<Event>) {
    if turns == [] then []
    else
      match turns[0]
      case Upstream(e) => [e] + Events(turns[1..])
      case Tick => Events(turns[1..])
      case Fault(_) => []
      case Closed => []
  }

  function Ending(turns: seq<Turn>): (s: Option<Status>) {
    if turns == [] then None
    else
      match turns[0]
      case Fault(s) => Some(s)
      case Closed => None
      case _ => Ending(turns[1..])
  }

  /** The messages a client gets from a stream, read off the events one by one. */
  function MessagesOf(es: seq<Event>, last: string): (ms: seq<Message>) {
    if es == [] then []
    else [MessageOf(es[0], last)] + MessagesOf(es[1..], NextId(last, EventId(es[0])))
  }

  function MessageOf(e: Event, last: string): (m: Message) {
    Message(EventTypeName(e.eventType), Payload(e), NextId(last, EventId(e)))
  }

  function LastId(es: seq<Event>, last: string): (id: string) {
    if es == [] then last else LastId(es[1..], NextId(last, EventId(es[0])))
  }

  function TerminalMessages(s: Option<Status>, last: string): (ms: seq<Message>) {
    match s
    case None => []
    case Some(st) => [Message(if st.exhausted then "RELOAD" else "error", Encode(st.body), last)]
  }

  /** Message by message: one per event, in order, with its name, payload and id; then
      the terminal one if the stream faulted.  The client resumes from the last id an
      event carried: keep-alives and the terminal message leave it alone. */
  lemma {:induction false} ExpectedMessages(turns: seq<Turn>, c: Client)
    ensures var r, es := Expected(turns, c), Events(turns);
            && r.messages == c.messages + MessagesOf(es, c.lastEventId)
                             + TerminalMessages(Ending(turns), LastId(es, c.lastEventId))
            && r.lastEventId == LastId(es, c.lastEventId)
    decreases |turns|
  {
    if turns == [] {
      assert c.messages + [] + [] == c.messages;
    } else {
      match turns[0] {
        case Upstream(e) =>
          var c' := Received(c, EventTypeName(e.eventType), EventId(e), Payload(e));
          ExpectedMessages(turns[1..], c');
          ReadOneMore(turns, e, c);
        case Tick => ExpectedMessages(turns[1..], c);
        case Fault(s) => assert c.messages + [] == c.messages;
        case Closed => assert c.messages + [] + [] == c.messages;
      }
    }
  }

  lemma {:induction false} ReadOneMore(turns: seq<Turn>, e: Event, c: Client)
    requires turns != [] && turns[0] == Upstream(e)
    ensures var c', rest := Received(c, EventTypeName(e.eventType), EventId(e), Payload(e)), Events(turns[1..]);
            && Events(turns) == [e] + rest && Ending(turns) == Ending(turns[1..])
            && c.messages + MessagesOf(Events(turns), c.lastEventId) == c'.messages + MessagesOf(rest, c'.lastEventId)
            && LastId(Events(turns), c.lastEventId) == LastId(rest, c'.lastEventId)
  {
    var rest, last := Events(turns[1..]), c.lastEventId;
    FirstMessage(e, rest, last);
    Regroup(c.messages, MessageOf(e, last), MessagesOf(rest, NextId(last, EventId(e))));
  }

  lemma {:induction false} FirstMessage(e: Event, rest: seq<Event>, last: string)
    ensures MessagesOf([e] + rest, last) == [MessageOf(e, last)] + MessagesOf(rest, NextId(last, EventId(e)))
    ensures LastId([e] + rest, last) == LastId(rest, NextId(last, EventId(e)))
  {
    assert ([e] + rest)[1..] == rest;
  }

  lemma Regroup(ms: seq<Message>, m: Message, more: seq<Message>)
    ensures ms + ([m] + more) == ms + [m] + more
  {
  }

  // ── Line breaks and NULs in an id always show ──────────────────────────────

  /** The messages as they were sent: an event without an id keeps the last one, any
      other id is taken as it is. */
  function SentId(last: string, id: string): (r: string) {
    if id == "" then last else id
  }

  function SentMessages(es: seq<Event>, last: string): (ms: seq<Message>) {
    if es == [] then []
    else
      var id := SentId(last, EventId(es[0]));
      [Message(EventTypeName(es[0].eventType), Payload(es[0]), id)] + SentMessages(es[1..], id)
  }

  function SentLast(es: seq<Event>, last: string): (id: string) {
    if es == [] then last else SentLast(es[1..], SentId(last, EventId(es[0])))
  }

  function Sent(turns: seq<Turn>): (ms: seq<Message>) {
    SentMessages(Events(turns), "") + TerminalMessages(Ending(turns), SentLast(Events(turns), ""))
  }

  ghost predicate Printable(id: string) {
    OneLine(id) && NulFree(id)
  }

  /** No id a client has read contains a line break or a NUL. */
  ghost predicate IdsArePrintable(c: Client) {
    && Printable(c.idBuffer) && Printable(c.lastEventId)
    && forall i :: 0 <= i < |c.messages| ==> Printable(c.messages[i].lastEventId)
  }

  lemma LineKeepsIds(line: string, c: Client)
    requires OneLine(line) && IdsArePrintable(c)
    ensures IdsArePrintable(Line(line, c))
  {
  }

  lemma {:induction false} ParseKeepsIds(s: string, c: Client)
    requires IdsArePrintable(c)
    ensures IdsArePrintable(Parse(s, c))
    decreases |s|
  {
    var n := LineEnd(s);
    if n < |s| {
      LineKeepsIds(s[..n], c);
      ParseKeepsIds(s[NextLine(s, n)..], Line(s[..n], c));
    }
  }

  lemma {:induction false} SentIds(es: seq<Event>, last: string, i: nat)
    requires i < |es| && EventId(es[i]) != ""
    ensures i < |SentMessages(es, last)| && SentMessages(es, last)[i].lastEventId == EventId(es[i])
  {
    if i > 0 { SentIds(es[1..], SentId(last, EventId(es[0])), i - 1); }
  }

  lemma {:induction false} SentIsRead(es: seq<Event>, last: string)
    requires forall i :: 0 <= i < |es| ==> NulFree(EventId(es[i]))
    ensures MessagesOf(es, last) == SentMessages(es, last) && LastId(es, last) == SentLast(es, last)
  {
    if es != [] {
      assert NulFree(EventId(es[0]));
      SentIsRead(es[1..], NextId(last, EventId(es[0])));
    }
  }

  ghost predicate PrintableIds(turns: seq<Turn>) {
    forall i :: 0 <= i < |Events(turns)| ==> Printable(EventId(Events(turns)[i]))
  }

  lemma PrintableArrives(turns: seq<Turn>)
    requires PrintableIds(turns)
    ensures ParseStream(Wire(turns)).messages == Sent(turns)
  {
    SseRoundTrip(turns);
    ExpectedMessages(turns, NEW_CLIENT);
    SentIsRead(Events(turns), "");
    assert NEW_CLIENT.messages + MessagesOf(Events(turns), "") == MessagesOf(Events(turns), "");
  }

  lemma ParsedIdsArePrintable(turns: seq<Turn>)
    ensures IdsArePrintable(ParseStream(Wire(turns)))
  {
    WireStartsPlainly(turns);
    ParseKeepsIds(Wire(turns), NEW_CLIENT);
  }

  /** For any stream: the client reads exactly the messages sent, ids included, if and
      only if no resource version sent has a line break or a NUL. */
  lemma SseRoundTripIff(turns: seq<Turn>)
    ensures ParseStream(Wire(turns)).messages == Sent(turns) <==> PrintableIds(turns)
  {
    if PrintableIds(turns) {
      PrintableArrives(turns);
    } else {
      var es := Events(turns);
      var i :| 0 <= i < |es| && !Printable(EventId(es[i]));
      SentIds(es, "", i);
      assert Sent(turns)[i] == SentMessages(es, "")[i];
      ParsedIdsArePrintable(turns);
    }
  }

  // ── What arrives, spelled out ──────────────────────────────────────────────

  /** The `i`-th message is the `i`-th event: its type, its body as JSON text, and its
      resource version as id; an event without one repeats the id before it. */
  ghost predicate Carries(m: Message, e: Event, last: string) {
    && m.event == (match e.eventType
                   case 0 => "ADDED"
                   case 2 => "DELETED"
                   case 3 => "SNAPSHOT"
                   case _ => "MODIFIED")
    && (e.resource.Some? && e.resource.value.body.Some? ==> m.data == Encode(e.resource.value.body.value))
    && (e.resource.None? || e.resource.value.body.None? ==> m.data == "{}")
    && (e.resource.None? || e.resource.value.resourceVersion == "" ==> m.lastEventId == last)
    && (e.resource.Some? && e.resource.value.resourceVersion != "" && NulFree(e.resource.value.resourceVersion) ==>
          m.lastEventId == e.resource.value.resourceVersion)
    && (e.resource.Some? && !NulFree(e.resource.value.resourceVersion) ==> m.lastEventId == last)
  }

  lemma {:induction false} MessagesCarry(es: seq<Event>, last: string, i: nat)
    requires i < |es|
    ensures |MessagesOf(es, last)| == |es|
    ensures Carries(MessagesOf(es, last)[i], es[i], if i == 0 then last else MessagesOf(es, last)[i - 1].lastEventId)
  {
    var last' := NextId(last, EventId(es[0]));
    if i > 0 {
      MessagesCarry(es[1..], last', i - 1);
    } else if |es| > 1 {
      MessagesCarry(es[1..], last', 0);
    }
  }

  /** Every event sent before the end is read back whole, in its place; a fault adds one
      message, which asks for a reload or reports an error; nothing else arrives. */
  lemma EventsArrive(turns: seq<Turn>, i: nat)
    requires CleanIds(turns)
    ensures var es, ms := Events(turns), ParseStream(Wire(turns)).messages;
            && |ms| == |es| + (if Ending(turns).Some? then 1 else 0)
            && (i < |es| ==> Carries(ms[i], es[i], if i == 0 then "" else ms[i - 1].lastEventId))
            && (Ending(turns).Some? ==>
                  && ms[|es|].event == (if Ending(turns).value.exhausted then "RELOAD" else "error")
                  && ms[|es|].data == Encode(Ending(turns).value.body)
                  && ms[|es|].lastEventId == ParseStream(Wire(turns)).lastEventId)
  {
    var es := Events(turns);
    SseRoundTrip(turns);
    ExpectedMessages(turns, NEW_CLIENT);
    var ms := MessagesOf(es, "");
    assert NEW_CLIENT.messages + ms == ms;
    if i < |es| {
      MessagesCarry(es, "", i);
    } else if es != [] {
      MessagesCarry(es, "", 0);
    }
  }

  /** The events read are those the upstream sent before its first fault or close. */
  lemma {:induction false} EventsAreUpstream(turns: seq<Turn>, n: nat)
    requires n <= |turns| && forall i :: 0 <= i < n ==> turns[i].Upstream? || turns[i].Tick?
    requires n < |turns| ==> turns[n].Fault? || turns[n].Closed?
    ensures Events(turns) == Sources(turns[..n])
    ensures Ending(turns) == if n < |turns| && turns[n].Fault? then Some(turns[n].status) else None
  {
    if n > 0 {
      EventsAreUpstream(turns[1..], n - 1);
      assert turns[..n][1..] == turns[1..][..n - 1];
    }
  }

  function Sources(turns: seq<Turn>): (es: seq<Event>) {
    if turns == [] then []
    else (if turns[0].Upstream? then [turns[0].event] else []) + Sources(turns[1..])
  }
}
