/** The event-stream frames of sse/stream.go, and the parser that reads them back:
    sections 9.2.5 and 9.2.6 of the WHATWG HTML Standard, on decoded text. */
module EventStream {
  import opened Wrappers

  /** The payload of a message. A value the encoder turned into text, or failed to,
      stands for every other Go type. */
  datatype Data = Nil | Bytes(bytes: string) | Text(text: string) | Encoded(json: string) | Unencodable

  // ---- Text ---------------------------------------------------------------------

  /** `s` split at every line feed; always at least one line. */
  function Lines(s: string): (lines: seq<string>)
    ensures |lines| >= 1
  {
    if |s| == 0 then [""]
    else if s[0] == '\n' then [""] + Lines(s[1..])
    else
      var tail := Lines(s[1..]);
      [[s[0]] + tail[0]] + tail[1..]
  }

  predicate OneLine(s: string) {
    forall i :: 0 <= i < |s| ==> s[i] != '\n' && s[i] != '\r'
  }

  predicate Without(s: string, c: char) {
    forall i :: 0 <= i < |s| ==> s[i] != c
  }

  /** Each line followed by a line feed. */
  function Terminated(lines: seq<string>): string {
    if |lines| == 0 then "" else lines[0] + "\n" + Terminated(lines[1..])
  }

  lemma {:induction false} TerminatedLines(s: string)
    ensures Terminated(Lines(s)) == s + "\n"
  {
    if |s| > 0 {
      var tail := Lines(s[1..]);
      TerminatedLines(s[1..]);
      assert s == [s[0]] + s[1..];
      if s[0] == '\n' {
        assert ([""] + tail)[1..] == tail;
      } else {
        assert ([[s[0]] + tail[0]] + tail[1..])[1..] == tail[1..];
        assert [s[0]] + tail[0] + "\n" + Terminated(tail[1..]) == [s[0]] + (tail[0] + "\n" + Terminated(tail[1..]));
      }
    }
  }

  lemma {:induction false} LinesAreSingle(s: string)
    requires Without(s, '\r')
    ensures forall i :: 0 <= i < |Lines(s)| ==> OneLine(Lines(s)[i])
  {
    if |s| > 0 {
      LinesAreSingle(s[1..]);
    }
  }

  // ---- The printer ------------------------------------------------------------------

  function Field(name: string, value: string): string {
    name + ": " + value + "\n"
  }

  function OptionalField(name: string, value: string): string {
    if value == "" then "" else Field(name, value)
  }

  function DataFields(lines: seq<string>): string {
    if |lines| == 0 then "" else Field("data", lines[0]) + DataFields(lines[1..])
  }

  function PayloadLines(data: Data): seq<string>
    requires !data.Unencodable?
  {
    match data
    case Nil => [""]
    case Bytes(s) => Lines(s)
    case Text(s) => Lines(s)
    case Encoded(v) => [v]
  }

  function Frame(id: string, evt: string, data: Data): string
    requires !data.Unencodable?
  {
    OptionalField("id", id) + OptionalField("event", evt) + DataFields(PayloadLines(data)) + "\n"
  }

  lemma {:induction false} DataFieldsConcat(a: seq<string>, b: seq<string>)
    ensures DataFields(a + b) == DataFields(a) + DataFields(b)
  {
    if |a| == 0 {
      assert a + b == b;
    } else {
      assert (a + b)[1..] == a[1..] + b;
      DataFieldsConcat(a[1..], b);
    }
  }

  /** The three writes that put one field in the buffer. */
  method WriteField(buf: string, prefix: string, value: string) returns (out: string)
    ensures out == buf + (prefix + value + "\n")
  {
    out := buf + prefix;
    out := out + value;
    out := out + "\n";
  }

  /** The loop over the pieces that splitting at line feeds yields. */
  method WriteLines(buf: string, s: string) returns (out: string)
    ensures out == buf + DataFields(Lines(s))
  {
    out := buf;
    var lines := Lines(s);
    for i := 0 to |lines|
      invariant out == buf + DataFields(lines[..i])
    {
      out := WriteField(out, "data: ", lines[i]);
      DataFieldsPush(lines, i);
    }
    assert lines[..|lines|] == lines;
  }

  lemma DataFieldsPush(lines: seq<string>, i: nat)
    requires i < |lines|
    ensures DataFields(lines[..i + 1]) == DataFields(lines[..i]) + ("data: " + lines[i] + "\n")
  {
    assert lines[..i + 1] == lines[..i] + [lines[i]];
    DataFieldsConcat(lines[..i], [lines[i]]);
    OneDataField(lines[i]);
  }

  lemma OneDataField(line: string)
    ensures DataFields([line]) == "data: " + line + "\n"
  {
    assert "data" + ": " == "data: ";
    assert DataFields([line]) == Field("data", line) + "";
  }

  /** The type switch: the data lines of every kind of payload. */
  method WritePayload(buf: string, data: Data) returns (out: string)
    requires !data.Unencodable?
    ensures out == buf + DataFields(PayloadLines(data))
  {
    match data {
      case Nil =>
        out := buf + "data: \n";
        OneDataField("");
      case Bytes(s) =>
        out := WriteLines(buf, s);
      case Text(s) =>
        out := WriteLines(buf, s);
      case Encoded(v) =>
        out := WriteField(buf, "data: ", v);
        OneDataField(v);
    }
  }

  /** The two optional fields at the start. */
  method WriteHead(id: string, evt: string) returns (buf: string)
    ensures buf == OptionalField("id", id) + OptionalField("event", evt)
  {
    buf := "";
    if id != "" {
      buf := WriteField(buf, "id: ", id);
      assert "id" + ": " == "id: ";
    }
    assert buf == OptionalField("id", id);
    if evt != "" {
      buf := WriteField(buf, "event: ", evt);
      assert "event" + ": " == "event: ";
    }
  }

  /** makeData: writes the fields to a buffer one after the other. An encoding
      error loses the buffer. */
  method MakeData(id: string, evt: string, data: Data) returns (r: Option<string>)
    ensures r == if data.Unencodable? then None else Some(Frame(id, evt, data))
  {
    var buf := WriteHead(id, evt);
    if data.Unencodable? {
      return None;
    }
    buf := WritePayload(buf, data);
    buf := buf + "\n";
    return Some(buf);
  }

  /** What is sent is never empty, so it is never taken for a missing buffer. */
  lemma FrameNotEmpty(id: string, evt: string, data: Data)
    requires !data.Unencodable?
    ensures Frame(id, evt, data) != ""
  {
  }

  /** The text of a frame, field by field. */
  lemma FrameText(id: string, evt: string, line: string)
    requires id != "" && evt != "" && Lines(line) == [line]
    ensures Frame(id, evt, Text(line)) == ("id: " + id + "\n") + ("event: " + evt + "\n") + ("data: " + line + "\n") + "\n"
  {
    OneDataField(line);
    FieldText("id", id, "id: ");
    FieldText("event", evt, "event: ");
  }

  lemma FieldText(name: string, value: string, prefix: string)
    requires prefix == name + ": "
    ensures Field(name, value) == prefix + value + "\n"
  {
  }

  // ---- Numbers ------------------------------------------------------------------------

  function Digit(d: nat): char
    requires d < 10
  {
    "0123456789"[d]
  }

  function Decimal(n: nat): string {
    if n < 10 then [Digit(n)] else Decimal(n / 10) + [Digit(n % 10)]
  }

  function FormatInt(n: int): string {
    if n < 0 then "-" + Decimal(-n) else Decimal(n)
  }

  predicate AllDigits(s: string) {
    forall i :: 0 <= i < |s| ==> '0' <= s[i] <= '9'
  }

  function ReadDigits(s: string): int
    requires AllDigits(s)
  {
    if |s| == 0 then 0 else ReadDigits(s[..|s| - 1]) * 10 + (s[|s| - 1] as int - '0' as int)
  }

  lemma {:induction false} DecimalReadsBack(n: nat)
    ensures |Decimal(n)| > 0 && AllDigits(Decimal(n)) && ReadDigits(Decimal(n)) == n
  {
    if n >= 10 {
      DecimalReadsBack(n / 10);
      var s := Decimal(n);
      assert s[..|s| - 1] == Decimal(n / 10);
    } else {
      var s := Decimal(n);
      assert s[..0] == "";
    }
  }

  function RetryFrame(ms: int): string {
    "retry: " + FormatInt(ms) + "\n\n"
  }

  const PingFrame: string := "data: ping\n\n"

  /** The other frames. */
  lemma OtherFrames()
    ensures PingFrame == "data: ping" + "\n" + "\n"
    ensures RetryFrame(3000) == "retry: 3000" + "\n" + "\n" && RetryFrame(-1) == "retry: -1" + "\n" + "\n"
  {
    assert Decimal(3000) == Decimal(300) + "0" && Decimal(300) == Decimal(30) + "0" && Decimal(30) == Decimal(3) + "0";
    assert FormatInt(3000) == "3000" && FormatInt(-1) == "-1";
  }

  // ---- The parser ---------------------------------------------------------------------

  datatype Event = Event(kind: string, data: string, lastId: string)

  /** The buffers of the algorithm, the reconnection time, and the events so far. */
  datatype Parser = Parser(data: string, kind: string, id: string, retry: Option<int>, events: seq<Event>)

  const Start: Parser := Parser("", "", "", None, [])

  /** Index of the first colon, or the length of the line. */
  function Colon(line: string): (k: nat)
    ensures k <= |line|
  {
    if |line| == 0 || line[0] == ':' then 0 else 1 + Colon(line[1..])
  }

  function Trim(value: string): string {
    if |value| > 0 && value[0] == ' ' then value[1..] else value
  }

  function SetField(p: Parser, name: string, value: string): Parser {
    if name == "event" then p.(kind := value)
    else if name == "data" then p.(data := p.data + value + "\n")
    else if name == "id" then (if Without(value, '\0') then p.(id := value) else p)
    else if name == "retry" then
      (if |value| > 0 && AllDigits(value) then p.(retry := Some(ReadDigits(value))) else p)
    else p
  }

  function Dispatch(p: Parser): Parser {
    if |p.data| == 0 then p.(kind := "")
    else
      var data := if p.data[|p.data| - 1] == '\n' then p.data[..|p.data| - 1] else p.data;
      var kind := if |p.kind| == 0 then "message" else p.kind;
      p.(data := "", kind := "", events := p.events + [Event(kind, data, p.id)])
  }

  function Feed(p: Parser, line: string): Parser {
    var k := Colon(line);
    if |line| == 0 then Dispatch(p)
    else if k == 0 then p
    else if k == |line| then SetField(p, line, "")
    else SetField(p, line[..k], Trim(line[k + 1..]))
  }

  /** Index of the first end of line, or the length. */
  function LineEnd(s: string): (k: nat)
    ensures k <= |s| && (k < |s| ==> s[k] == '\n' || s[k] == '\r') && OneLine(s[..k])
  {
    if |s| == 0 || s[0] == '\n' || s[0] == '\r' then 0
    else
      var k := LineEnd(s[1..]);
      assert s[..k + 1] == [s[0]] + s[1..][..k];
      k + 1
  }

  /** The lines that are ended by CR LF, LF or CR; what follows the last is dropped. */
  function EndedLines(s: string): seq<string>
    decreases |s|
  {
    var k := LineEnd(s);
    if k == |s| then []
    else
      var next := if s[k] == '\r' && k + 1 < |s| && s[k + 1] == '\n' then k + 2 else k + 1;
      [s[..k]] + EndedLines(s[next..])
  }

  function FeedAll(p: Parser, lines: seq<string>): Parser
    decreases lines
  {
    if |lines| == 0 then p else FeedAll(Feed(p, lines[0]), lines[1..])
  }

  function Parse(s: string): Parser {
    FeedAll(Start, EndedLines(if |s| > 0 && s[0] == '\U{FEFF}' then s[1..] else s))
  }

  // ---- Text back to lines ---------------------------------------------------------------

  lemma {:induction false} LineEndIs(line: string, rest: string)
    requires OneLine(line)
    ensures LineEnd(line + "\n" + rest) == |line|
  {
    if |line| > 0 {
      assert (line + "\n" + rest)[1..] == line[1..] + "\n" + rest;
      LineEndIs(line[1..], rest);
    }
  }

  lemma {:induction false} EndedLinesOfTerminated(lines: seq<string>)
    requires forall i :: 0 <= i < |lines| ==> OneLine(lines[i])
    ensures EndedLines(Terminated(lines)) == lines
  {
    if |lines| > 0 {
      EndedLinesOfTerminated(lines[1..]);
      EndedLinesStart(lines[0], Terminated(lines[1..]));
      assert lines == [lines[0]] + lines[1..];
    }
  }

  lemma EndedLinesStart(line: string, rest: string)
    requires OneLine(line)
    ensures EndedLines(line + "\n" + rest) == [line] + EndedLines(rest)
  {
    var s := line + "\n" + rest;
    LineEndIs(line, rest);
    assert s[|line|] == '\n' && s[..|line|] == line && s[|line| + 1..] == rest;
  }

  lemma {:induction false} TerminatedConcat(a: seq<string>, b: seq<string>)
    ensures Terminated(a + b) == Terminated(a) + Terminated(b)
  {
    if |a| == 0 {
      assert a + b == b;
    } else {
      assert (a + b)[1..] == a[1..] + b;
      TerminatedConcat(a[1..], b);
    }
  }

  lemma {:induction false} FeedAllConcat(p: Parser, a: seq<string>, b: seq<string>)
    ensures FeedAll(p, a + b) == FeedAll(FeedAll(p, a), b)
    decreases a
  {
    if |a| == 0 {
      assert a + b == b;
    } else {
      assert (a + b)[1..] == a[1..] + b;
      FeedAllConcat(Feed(p, a[0]), a[1..], b);
    }
  }

  // ---- Lines back to fields ---------------------------------------------------------------

  function FieldLine(name: string, value: string): string {
    name + ": " + value
  }

  lemma {:induction false} ColonIs(name: string, value: string)
    requires Without(name, ':')
    ensures Colon(name + ":" + value) == |name|
  {
    if |name| > 0 {
      assert (name + ":" + value)[1..] == name[1..] + ":" + value;
      ColonIs(name[1..], value);
    }
  }

  lemma FeedField(p: Parser, name: string, value: string)
    requires |name| > 0 && Without(name, ':')
    ensures Feed(p, FieldLine(name, value)) == SetField(p, name, value)
  {
    var line := name + ":" + (" " + value);
    ColonIs(name, " " + value);
    assert line == FieldLine(name, value);
    assert line[..|name|] == name && line[|name| + 1..] == " " + value && (" " + value)[1..] == value;
  }

  lemma FeedOne(p: Parser, line: string)
    ensures FeedAll(p, [line]) == Feed(p, line)
  {
    assert FeedAll(Feed(p, line), [line][1..]) == Feed(p, line);
  }

  // ---- Messages -------------------------------------------------------------------------

  /** One thing put on a stream. */
  datatype Item = Message(id: string, evt: string, data: Data) | Ping | Retry(ms: int)

  function Payload(data: Data): string {
    match data
    case Nil => ""
    case Bytes(s) => s
    case Text(s) => s
    case Encoded(v) => v
    case Unencodable => ""
  }

  /** What the framing can carry. */
  predicate Carried(id: string, evt: string, data: Data) {
    OneLine(id) && Without(id, '\0') && OneLine(evt) && Without(Payload(data), '\r')
  }

  /** The encoder's text has no line ends. */
  predicate EncoderOk(data: Data) {
    data.Encoded? ==> OneLine(data.json)
  }

  predicate Encodable(item: Item) {
    item.Message? ==> !item.data.Unencodable? && EncoderOk(item.data)
  }

  predicate Fits(item: Item) {
    Encodable(item) && (item.Message? ==> Carried(item.id, item.evt, item.data))
  }

  predicate AllEncodable(items: seq<Item>) {
    forall i :: 0 <= i < |items| ==> Encodable(items[i])
  }

  predicate AllFit(items: seq<Item>) {
    forall i :: 0 <= i < |items| ==> Fits(items[i])
  }

  function Print(item: Item): string
    requires item.Message? ==> !item.data.Unencodable?
  {
    match item
    case Message(id, evt, data) => Frame(id, evt, data)
    case Ping => PingFrame
    case Retry(ms) => RetryFrame(ms)
  }

  function PrintAll(items: seq<Item>): string
    requires AllEncodable(items)
  {
    if |items| == 0 then ""
    else
      assert Encodable(items[0]);
      Print(items[0]) + PrintAll(items[1..])
  }

  /** The last event id after `item`. */
  function NextId(item: Item, lastId: string): string {
    if item.Message? && item.id != "" then item.id else lastId
  }

  function KindOf(evt: string): string {
    if evt == "" then "message" else evt
  }

  /** The events a listener should see. */
  function Expected(items: seq<Item>, lastId: string): seq<Event> {
    if |items| == 0 then []
    else
      var id := NextId(items[0], lastId);
      (match items[0]
       case Message(_, evt, data) => [Event(KindOf(evt), Payload(data), id)]
       case Ping => [Event("message", "ping", id)]
       case Retry(_) => []) + Expected(items[1..], id)
  }

  /** The reconnection time a listener should end with: negative ones are ignored. */
  function ExpectedRetry(items: seq<Item>, retry: Option<int>): Option<int> {
    if |items| == 0 then retry
    else ExpectedRetry(items[1..], if items[0].Retry? && items[0].ms >= 0 then Some(items[0].ms) else retry)
  }

  /** A parser between two frames. */
  predicate Idle(p: Parser) {
    p.data == "" && p.kind == ""
  }

  function OptionalLine(name: string, value: string): seq<string> {
    if value == "" then [] else [FieldLine(name, value)]
  }

  function DataLines(lines: seq<string>): (r: seq<string>)
    ensures |r| == |lines|
  {
    if |lines| == 0 then [] else [FieldLine("data", lines[0])] + DataLines(lines[1..])
  }

  /** The lines of an item, without their ends. */
  function ItemLines(item: Item): seq<string>
    requires item.Message? ==> !item.data.Unencodable?
  {
    match item
    case Message(id, evt, data) =>
      OptionalLine("id", id) + OptionalLine("event", evt) + DataLines(PayloadLines(data)) + [""]
    case Ping => [FieldLine("data", "ping"), ""]
    case Retry(ms) => [FieldLine("retry", FormatInt(ms)), ""]
  }

  function AllLines(items: seq<Item>): seq<string>
    requires AllEncodable(items)
  {
    if |items| == 0 then []
    else
      assert Encodable(items[0]);
      ItemLines(items[0]) + AllLines(items[1..])
  }

  /** The parser after one item. */
  function Taken(p: Parser, item: Item): Parser {
    var id := NextId(item, p.id);
    match item
    case Message(_, evt, data) => p.(id := id, events := p.events + [Event(KindOf(evt), Payload(data), id)])
    case Ping => p.(events := p.events + [Event("message", "ping", id)])
    case Retry(ms) => if ms >= 0 then p.(retry := Some(ms)) else p
  }

  function TakenAll(p: Parser, items: seq<Item>): Parser
    decreases items
  {
    if |items| == 0 then p else TakenAll(Taken(p, items[0]), items[1..])
  }

  lemma PayloadTerminated(data: Data)
    requires !data.Unencodable? && EncoderOk(data) && Without(Payload(data), '\r')
    ensures Terminated(PayloadLines(data)) == Payload(data) + "\n"
    ensures forall i :: 0 <= i < |PayloadLines(data)| ==> OneLine(PayloadLines(data)[i])
  {
    match data
    case Nil => assert Terminated([""]) == "" + "\n" + "";
    case Bytes(s) => TerminatedLines(s); LinesAreSingle(s);
    case Text(s) => TerminatedLines(s); LinesAreSingle(s);
    case Encoded(v) => assert Terminated([v]) == v + "\n" + "";
  }

  // ---- Printing is ending lines ---------------------------------------------------------

  lemma {:induction false} DataIsLines(lines: seq<string>)
    ensures DataFields(lines) == Terminated(DataLines(lines))
  {
    if |lines| > 0 {
      DataIsLines(lines[1..]);
      assert DataLines(lines)[1..] == DataLines(lines[1..]);
    }
  }

  lemma OptionalIsLine(name: string, value: string)
    ensures OptionalField(name, value) == Terminated(OptionalLine(name, value))
  {
    if value != "" {
      var line := FieldLine(name, value);
      assert Terminated([line]) == line + "\n" + "";
    }
  }

  lemma PrintIsLines(item: Item)
    requires item.Message? ==> !item.data.Unencodable?
    ensures Print(item) == Terminated(ItemLines(item))
  {
    match item
    case Message(id, evt, data) =>
      var a, b, c := OptionalLine("id", id), OptionalLine("event", evt), DataLines(PayloadLines(data));
      OptionalIsLine("id", id);
      OptionalIsLine("event", evt);
      DataIsLines(PayloadLines(data));
      TerminatedConcat(a, b);
      TerminatedConcat(a + b, c);
      TerminatedConcat(a + b + c, [""]);
      TerminatedOne("");
    case Ping =>
      TerminatedPair(FieldLine("data", "ping"));
    case Retry(ms) =>
      TerminatedPair(FieldLine("retry", FormatInt(ms)));
  }

  lemma TerminatedOne(line: string)
    ensures Terminated([line]) == line + "\n"
  {
    assert Terminated([line]) == line + "\n" + Terminated([line][1..]);
  }

  lemma TerminatedPair(line: string)
    ensures Terminated([line, ""]) == line + "\n\n"
  {
    assert [line] + [""] == [line, ""];
    TerminatedConcat([line], [""]);
    TerminatedOne(line);
    TerminatedOne("");
  }

  lemma {:induction false} PrintAllIsLines(items: seq<Item>)
    requires AllEncodable(items)
    ensures PrintAll(items) == Terminated(AllLines(items))
  {
    if |items| > 0 {
      assert Encodable(items[0]);
      PrintIsLines(items[0]);
      PrintAllIsLines(items[1..]);
      TerminatedConcat(ItemLines(items[0]), AllLines(items[1..]));
    }
  }

  predicate AllOneLine(lines: seq<string>) {
    forall i :: 0 <= i < |lines| ==> OneLine(lines[i])
  }

  lemma FormatOneLine(n: int)
    ensures OneLine(FieldLine("retry", FormatInt(n)))
  {
    DecimalReadsBack(if n < 0 then -n else n);
  }

  lemma ItemLinesAreSingle(item: Item)
    requires Fits(item)
    ensures AllOneLine(ItemLines(item))
  {
    match item
    case Message(id, evt, data) =>
      PayloadTerminated(data);
      DataLinesAreSingle(PayloadLines(data));
    case Ping =>
    case Retry(ms) =>
      FormatOneLine(ms);
  }

  lemma {:induction false} DataLinesAreSingle(lines: seq<string>)
    requires AllOneLine(lines)
    ensures AllOneLine(DataLines(lines))
  {
    if |lines| > 0 {
      assert OneLine(lines[0]);
      DataLinesAreSingle(lines[1..]);
    }
  }

  lemma {:induction false} AllLinesAreSingle(items: seq<Item>)
    requires AllFit(items)
    ensures AllOneLine(AllLines(items))
  {
    if |items| > 0 {
      assert Fits(items[0]);
      ItemLinesAreSingle(items[0]);
      AllLinesAreSingle(items[1..]);
    }
  }

  // ---- Feeding an item's lines ---------------------------------------------------------------

  lemma FeedOptional(p: Parser, name: string, value: string)
    requires |name| > 0 && Without(name, ':')
    ensures FeedAll(p, OptionalLine(name, value)) == if value == "" then p else SetField(p, name, value)
  {
    if value != "" {
      FeedOne(p, FieldLine(name, value));
      FeedField(p, name, value);
    }
  }

  lemma Reassociate(a: string, line: string, rest: string)
    ensures a + line + "\n" + rest == a + (line + "\n" + rest)
  {
  }

  lemma FeedDataLine(p: Parser, line: string)
    ensures Feed(p, FieldLine("data", line)) == p.(data := p.data + line + "\n")
  {
    FeedField(p, "data", line);
  }

  lemma {:induction false} FeedData(p: Parser, lines: seq<string>)
    ensures FeedAll(p, DataLines(lines)) == p.(data := p.data + Terminated(lines))
    decreases lines
  {
    if |lines| == 0 {
      assert p.data + "" == p.data;
    } else {
      var line, rest := lines[0], Terminated(lines[1..]);
      var next := p.(data := p.data + line + "\n");
      FeedDataLine(p, line);
      assert DataLines(lines)[1..] == DataLines(lines[1..]);
      FeedData(next, lines[1..]);
      Reassociate(p.data, line, rest);
    }
  }

  lemma FeedMessage(p: Parser, id: string, evt: string, data: Data)
    requires Idle(p) && Fits(Message(id, evt, data))
    ensures FeedAll(p, ItemLines(Message(id, evt, data))) == Taken(p, Message(id, evt, data))
  {
    var lines := PayloadLines(data);
    var a, b, c := OptionalLine("id", id), OptionalLine("event", evt), DataLines(lines);
    var p1 := p.(id := if id == "" then p.id else id);
    var p2 := p1.(kind := evt);
    FeedOptional(p, "id", id);
    FeedOptional(p1, "event", evt);
    FeedAllConcat(p, a, b);
    PayloadTerminated(data);
    FeedData(p2, lines);
    FeedAllConcat(p, a + b, c);
    FeedAllConcat(p, a + b + c, [""]);
    FeedOne(p2.(data := p2.data + Terminated(lines)), "");
    DispatchMessage(p2, Payload(data));
  }

  lemma DispatchMessage(p: Parser, text: string)
    requires p.data == ""
    ensures Dispatch(p.(data := p.data + (text + "\n")))
         == p.(kind := "", events := p.events + [Event(KindOf(p.kind), text, p.id)])
  {
    assert (text + "\n")[..|text|] == text && p.data + (text + "\n") == text + "\n";
  }

  /** A frame of one field. */
  lemma FeedPair(p: Parser, name: string, value: string)
    requires |name| > 0 && Without(name, ':')
    ensures FeedAll(p, [FieldLine(name, value), ""]) == Dispatch(SetField(p, name, value))
  {
    var line := FieldLine(name, value);
    var next := Feed(p, line);
    FeedField(p, name, value);
    assert [line, ""][1..] == [""];
    FeedOne(next, "");
  }

  /** A negative number is not made of digits alone. */
  lemma FormatReadsBack(n: int)
    ensures |FormatInt(n)| > 0 && (AllDigits(FormatInt(n)) <==> n >= 0)
    ensures n >= 0 ==> ReadDigits(FormatInt(n)) == n
  {
    DecimalReadsBack(if n < 0 then -n else n);
    assert n < 0 ==> FormatInt(n)[0] == '-';
  }

  lemma FeedRetry(p: Parser, ms: int)
    requires Idle(p)
    ensures FeedAll(p, ItemLines(Retry(ms))) == Taken(p, Retry(ms))
  {
    FormatReadsBack(ms);
    FeedPair(p, "retry", FormatInt(ms));
  }

  lemma FeedPing(p: Parser)
    requires Idle(p)
    ensures FeedAll(p, ItemLines(Ping)) == Taken(p, Ping)
  {
    var text := "ping";
    FeedPair(p, "data", text);
    assert p.data + text + "\n" == p.data + (text + "\n");
    DispatchMessage(p, text);
  }

  lemma {:induction false} FeedItems(p: Parser, items: seq<Item>)
    requires Idle(p) && AllFit(items)
    ensures FeedAll(p, AllLines(items)) == TakenAll(p, items)
    decreases items
  {
    if |items| > 0 {
      assert Fits(items[0]);
      FeedAllConcat(p, ItemLines(items[0]), AllLines(items[1..]));
      match items[0] {
        case Message(id, evt, data) => FeedMessage(p, id, evt, data);
        case Ping => FeedPing(p);
        case Retry(ms) => FeedRetry(p, ms);
      }
      FeedItems(Taken(p, items[0]), items[1..]);
    }
  }

  lemma {:induction false} TakenIsExpected(p: Parser, items: seq<Item>)
    ensures var q := TakenAll(p, items);
            q.events == p.events + Expected(items, p.id) && q.retry == ExpectedRetry(items, p.retry)
    decreases items
  {
    if |items| > 0 {
      TakenIsExpected(Taken(p, items[0]), items[1..]);
    }
  }

  lemma NoByteOrderMark(items: seq<Item>)
    requires AllEncodable(items)
    ensures |PrintAll(items)| > 0 ==> PrintAll(items)[0] != '\U{FEFF}'
  {
    if |items| > 0 {
      assert Encodable(items[0]);
      match items[0] {
        case Message(id, evt, data) => FrameStart(id, evt, data);
        case Ping =>
        case Retry(ms) =>
      }
    }
  }

  lemma FrameStart(id: string, evt: string, data: Data)
    requires !data.Unencodable?
    ensures |Frame(id, evt, data)| > 0 && Frame(id, evt, data)[0] in "ied"
  {
    var lines := PayloadLines(data);
    assert DataFields(lines) == Field("data", lines[0]) + DataFields(lines[1..]);
    assert DataFields(lines)[0] == 'd';
  }

  /** Printing then parsing gives back every message in order, with its text, its
      type and the latest id; retry frames add no event and set the retry time. */
  lemma RoundTrip(items: seq<Item>)
    requires AllFit(items)
    ensures Parse(PrintAll(items)).events == Expected(items, "")
    ensures Parse(PrintAll(items)).retry == ExpectedRetry(items, None)
  {
    NoByteOrderMark(items);
    PrintAllIsLines(items);
    AllLinesAreSingle(items);
    EndedLinesOfTerminated(AllLines(items));
    FeedItems(Start, items);
    TakenIsExpected(Start, items);
  }

  // ---- What the framing cannot carry -----------------------------------------------------

  /** What holds of a parser that has only been fed single lines. */
  predicate Sound(p: Parser) {
    && Without(p.data, '\r') && OneLine(p.kind) && OneLine(p.id) && Without(p.id, '\0')
    && forall i :: 0 <= i < |p.events| ==> SoundEvent(p.events[i])
  }

  predicate SoundEvent(e: Event) {
    Without(e.data, '\r') && OneLine(e.kind) && OneLine(e.lastId) && Without(e.lastId, '\0')
  }

  lemma FeedKeepsSound(p: Parser, line: string)
    requires Sound(p) && OneLine(line)
    ensures Sound(Feed(p, line))
  {
    var k := Colon(line);
    if 0 < k < |line| {
      assert OneLine(line[..k]) && OneLine(line[k + 1..]) && OneLine(Trim(line[k + 1..]));
    }
  }

  lemma {:induction false} FeedAllKeepsSound(p: Parser, lines: seq<string>)
    requires Sound(p) && AllOneLine(lines)
    ensures Sound(FeedAll(p, lines))
    decreases lines
  {
    if |lines| > 0 {
      assert OneLine(lines[0]);
      FeedKeepsSound(p, lines[0]);
      FeedAllKeepsSound(Feed(p, lines[0]), lines[1..]);
    }
  }

  lemma {:induction false} EndedLinesAreSingle(s: string)
    ensures AllOneLine(EndedLines(s))
    decreases |s|
  {
    var k := LineEnd(s);
    if k < |s| {
      EndedLinesAreSingle(s[if s[k] == '\r' && k + 1 < |s| && s[k + 1] == '\n' then k + 2 else k + 1..]);
    }
  }

  lemma PrintOne(item: Item)
    requires Encodable(item)
    ensures PrintAll([item]) == Print(item)
  {
    assert PrintAll([item]) == Print(item) + PrintAll([item][1..]);
  }

  lemma ExpectOne(item: Item, lastId: string)
    requires item.Message?
    ensures Expected([item], lastId) == [Event(KindOf(item.evt), Payload(item.data), NextId(item, lastId))]
  {
    assert Expected([item][1..], NextId(item, lastId)) == [];
  }

  lemma ParsedIsSound(text: string)
    ensures Sound(Parse(text))
  {
    var body := if |text| > 0 && text[0] == '\U{FEFF}' then text[1..] else text;
    EndedLinesAreSingle(body);
    FeedAllKeepsSound(Start, EndedLines(body));
  }

  /** If every expected event is one that a parser can yield, every item can be carried. */
  lemma {:induction false} ExpectedIsSound(items: seq<Item>, lastId: string)
    requires AllEncodable(items)
    requires forall i :: 0 <= i < |Expected(items, lastId)| ==> SoundEvent(Expected(items, lastId)[i])
    ensures AllFit(items)
  {
    if |items| > 0 {
      var events, id := Expected(items, lastId), NextId(items[0], lastId);
      var rest := Expected(items[1..], id);
      assert Encodable(items[0]);
      if !items[0].Retry? {
        assert SoundEvent(events[0]) && events[1..] == rest;
        assert forall i :: 0 <= i < |rest| ==> rest[i] == events[i + 1];
      } else {
        assert events == rest;
      }
      ExpectedIsSound(items[1..], id);
      assert forall i :: 1 <= i < |items| ==> items[i] == items[1..][i - 1];
    }
  }

  /** A sequence comes back as itself exactly when every message of it has an id and a
      type that are single lines, an id without NUL and a text without a carriage
      return. */
  lemma SequenceCarriedExactly(items: seq<Item>)
    requires AllEncodable(items)
    ensures Parse(PrintAll(items)).events == Expected(items, "") <==> AllFit(items)
  {
    if AllFit(items) {
      RoundTrip(items);
    } else if Parse(PrintAll(items)).events == Expected(items, "") {
      ParsedIsSound(PrintAll(items));
      ExpectedIsSound(items, "");
    }
  }

  /** In particular for one message. */
  lemma CarriedExactly(id: string, evt: string, data: Data)
    requires !data.Unencodable? && EncoderOk(data)
    ensures Parse(Frame(id, evt, data)).events == [Event(KindOf(evt), Payload(data), id)]
            <==> Carried(id, evt, data)
  {
    var item := Message(id, evt, data);
    SequenceCarriedExactly([item]);
    PrintOne(item);
    ExpectOne(item, "");
    assert AllFit([item]) <==> Fits([item][0]);
  }
}
